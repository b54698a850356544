/** Byte strings as the programs handle them: splitting, joining, C strings,
    searching and decimal numbers. */
module Text {
  datatype Option<+T> = None | Some(value: T)

  /** boost::split with one separator and no token compression: n separators give
      n + 1 pieces, and adjacent separators give empty pieces. */
  function Split(s: string, sep: char): (r: seq<string>)
    ensures |r| >= 1
  {
    if s == [] then [""]
    else if s[0] == sep then [""] + Split(s[1..], sep)
    else Glue(s[0], Split(s[1..], sep))
  }

  /** The pieces with one more character at the front of the first. */
  function Glue(c: char, r: seq<string>): (g: seq<string>)
    requires |r| >= 1
    ensures |g| == |r|
  {
    [[c] + r[0]] + r[1..]
  }

  lemma {:induction false} GlueConcat(c: char, r: seq<string>, t: seq<string>)
    requires |r| >= 1
    ensures Glue(c, r + t) == Glue(c, r) + t
  {
    assert (r + t)[1..] == r[1..] + t;
  }

  /** The pieces with one separator between neighbours. */
  function Join(parts: seq<string>, sep: char): string
    requires |parts| >= 1
  {
    if |parts| == 1 then parts[0] else parts[0] + [sep] + Join(parts[1..], sep)
  }

  function Concat(parts: seq<string>): string {
    if parts == [] then "" else parts[0] + Concat(parts[1..])
  }

  ghost predicate Free(parts: seq<string>, sep: char) {
    forall p :: p in parts ==> sep !in p
  }

  lemma {:induction false} SplitNone(s: string, sep: char)
    requires sep !in s
    ensures Split(s, sep) == [s]
  {
    if s != [] {
      assert forall c :: c in s[1..] ==> c in s;
      SplitNone(s[1..], sep);
      assert [s[0]] + s[1..] == s;
    }
  }

  /** A separator cuts the text exactly where it stands. */
  lemma {:induction false} SplitAt(a: string, sep: char, b: string)
    ensures Split(a + [sep] + b, sep) == Split(a, sep) + Split(b, sep)
  {
    hide Glue;
    var whole, t := a + [sep] + b, Split(b, sep);
    if a == [] {
      assert whole[0] == sep && whole[1..] == b;
    } else {
      assert whole[0] == a[0] && whole[1..] == a[1..] + [sep] + b;
      var r := Split(a[1..], sep);
      SplitAt(a[1..], sep, b);
      if a[0] == sep {
        Prepend("", r, t);
      } else {
        GlueConcat(a[0], r, t);
      }
    }
  }

  lemma Prepend<T>(x: T, r: seq<T>, t: seq<T>)
    ensures [x] + (r + t) == [x] + r + t
  {
  }

  function Front<T>(r: seq<T>): seq<T>
    requires |r| >= 1
  {
    r[..|r| - 1]
  }

  function Last<T>(r: seq<T>): T
    requires |r| >= 1
  {
    r[|r| - 1]
  }

  /** Appending text only touches the last piece. */
  lemma {:induction false} SplitAppend(a: string, b: string, sep: char)
    ensures Split(a + b, sep) == Front(Split(a, sep)) + Split(Last(Split(a, sep)) + b, sep)
  {
    hide Glue, Front, Last;
    if a == [] {
      assert a + b == b;
      LastOne("");
    } else {
      var q := Split(a[1..], sep);
      var x := Split(Last(q) + b, sep);
      assert (a + b)[0] == a[0] && (a + b)[1..] == a[1..] + b;
      SplitAppend(a[1..], b, sep);
      if a[0] == sep {
        LastCons("", q);
        Prepend("", Front(q), x);
      } else if |q| == 1 {
        LastOne(q[0]);
        LastOne([a[0]] + q[0]);
        GlueOne(a[0], q);
        var p := [a[0]] + q[0] + b;
        assert p[0] == a[0] && p[1..] == q[0] + b;
        assert Split(p, sep) == Glue(a[0], x);
        assert [] + x == x && [] + Split(p, sep) == Split(p, sep);
      } else {
        LastGlue(a[0], q);
        GlueConcat(a[0], Front(q), x);
      }
    }
  }

  lemma LastOne<T>(x: T)
    ensures Front([x]) == [] && Last([x]) == x
  {
  }

  lemma LastCons<T>(x: T, q: seq<T>)
    requires |q| >= 1
    ensures Front([x] + q) == [x] + Front(q) && Last([x] + q) == Last(q)
  {
  }

  lemma GlueOne(c: char, q: seq<string>)
    requires |q| == 1
    ensures Glue(c, q) == [[c] + q[0]] && q == [q[0]]
  {
  }

  lemma LastGlue(c: char, q: seq<string>)
    requires |q| >= 2
    ensures |Front(q)| >= 1 && Front(Glue(c, q)) == Glue(c, Front(q)) && Last(Glue(c, q)) == Last(q)
  {
  }

  lemma {:induction false} SplitFree(s: string, sep: char)
    ensures Free(Split(s, sep), sep)
  {
    if s != [] {
      SplitFree(s[1..], sep);
    }
  }

  lemma {:induction false} SplitSingle(s: string, sep: char)
    ensures |Split(s, sep)| == 1 <==> sep !in s
  {
    if s != [] {
      SplitSingle(s[1..], sep);
      assert s == [s[0]] + s[1..];
    }
  }

  lemma {:induction false} JoinSplit(s: string, sep: char)
    ensures Join(Split(s, sep), sep) == s
  {
    if s != [] {
      JoinSplit(s[1..], sep);
      var r := Split(s[1..], sep);
      if s[0] == sep {
        assert ([""] + r)[1..] == r;
      } else if |r| > 1 {
        assert Glue(s[0], r)[1..] == r[1..];
        assert [s[0]] + (r[0] + [sep] + Join(r[1..], sep)) == [s[0]] + r[0] + [sep] + Join(r[1..], sep);
      }
    }
  }

  lemma SliceSlice<T>(m: seq<T>, a: nat, b: nat, i: nat, j: nat)
    requires a <= b <= |m| && i <= j <= b - a
    ensures m[a..b][i..j] == m[a + i..a + j]
  {
    var p, q := m[a..b][i..j], m[a + i..a + j];
    assert |p| == |q|;
    forall k | 0 <= k < |p| ensures p[k] == q[k] {
      assert p[k] == m[a..b][i + k] == m[a + (i + k)];
    }
  }

  lemma Slices<T>(m: seq<T>, a: nat, b: nat, c: nat)
    requires a <= b <= c <= |m|
    ensures m[a..b] + m[b..c] == m[a..c]
  {
  }

  lemma Assoc<T>(a: seq<T>, b: seq<T>, c: seq<T>)
    ensures a + b + c == a + (b + c)
  {
  }

  /** The text a C string function sees: everything before the first NUL. */
  function CStr(s: string): string {
    if s == [] || s[0] == '\0' then "" else [s[0]] + CStr(s[1..])
  }

  lemma {:induction false} CStrWhole(s: string)
    ensures CStr(s) == s <==> '\0' !in s
  {
    if s != [] {
      CStrWhole(s[1..]);
      assert s == [s[0]] + s[1..];
      if s[0] != '\0' {
        assert CStr(s)[1..] == CStr(s[1..]);
      }
    }
  }

  /** That is the text in front of the first NUL, or all of it if there is none. */
  lemma {:induction false} CStrPrefix(s: string)
    ensures CStr(s) <= s && '\0' !in CStr(s) && (CStr(s) == s || s[|CStr(s)|] == '\0')
  {
    if s != [] && s[0] != '\0' {
      CStrPrefix(s[1..]);
      assert s == [s[0]] + s[1..];
    }
  }

  /** std::string::find: the first place at which pat occurs in s. */
  function Find(s: string, pat: string): (r: Option<nat>)
    ensures r.Some? ==> r.value + |pat| <= |s|
  {
    if pat <= s then Some(0)
    else if s == [] then None
    else match Find(s[1..], pat)
      case None => None
      case Some(i) => Some(i + 1)
  }

  ghost predicate Occurs(s: string, pat: string, i: nat) {
    i + |pat| <= |s| && s[i..i + |pat|] == pat
  }

  lemma {:induction false} FindFirst(s: string, pat: string)
    ensures Find(s, pat).Some? ==> Occurs(s, pat, Find(s, pat).value)
    ensures Find(s, pat).Some? ==> forall i: nat :: i < Find(s, pat).value ==> !Occurs(s, pat, i)
    ensures Find(s, pat).None? ==> forall i: nat :: !Occurs(s, pat, i)
  {
    assert pat <= s <==> Occurs(s, pat, 0);
    if !(pat <= s) && s != [] {
      FindFirst(s[1..], pat);
      forall i: nat | i >= 1 ensures Occurs(s, pat, i) <==> Occurs(s[1..], pat, i - 1) {
        if i + |pat| <= |s| {
          assert s[i..i + |pat|] == s[1..][i - 1..i - 1 + |pat|];
        }
      }
    }
  }

  function Digit(d: nat): char
    requires d < 10
  {
    "0123456789"[d]
  }

  predicate IsDigit(c: char) {
    '0' <= c <= '9'
  }

  function DigitValue(c: char): nat
    requires IsDigit(c)
  {
    (c - '0') as int
  }

  predicate AllDigits(s: string) {
    forall i :: 0 <= i < |s| ==> IsDigit(s[i])
  }

  /** printf's %d for a number that is not negative. */
  function Dec(n: nat): (s: string)
    ensures |s| >= 1 && AllDigits(s)
  {
    if n < 10 then [Digit(n)] else Dec(n / 10) + [Digit(n % 10)]
  }

  function DecValue(s: string): nat
    requires AllDigits(s)
  {
    if s == [] then 0 else 10 * DecValue(s[..|s| - 1]) + DigitValue(s[|s| - 1])
  }

  lemma {:induction false} DecRoundTrip(n: nat)
    ensures DecValue(Dec(n)) == n
  {
    if n >= 10 {
      DecRoundTrip(n / 10);
      var s := Dec(n);
      assert s[..|s| - 1] == Dec(n / 10) && s[|s| - 1] == Digit(n % 10);
      assert DecValue(s) == 10 * DecValue(s[..|s| - 1]) + n % 10;
    } else {
      assert [Digit(n)][..0] == [];
    }
  }

  lemma DecInjective(m: nat, n: nat)
    requires Dec(m) == Dec(n)
    ensures m == n
  {
    DecRoundTrip(m);
    DecRoundTrip(n);
  }

  lemma {:induction false} DecValuePositive(s: string)
    requires AllDigits(s) && s != "" && s[0] != '0'
    ensures DecValue(s) >= 1
  {
    if |s| > 1 {
      DecValuePositive(s[..|s| - 1]);
    }
  }

  lemma {:induction false} DecLeading(n: nat)
    ensures |Dec(n)| > 1 ==> n >= 10 && Dec(n)[0] != '0'
    ensures n > 0 ==> Dec(n)[0] != '0'
  {
    if n >= 10 {
      DecLeading(n / 10);
    }
  }

  lemma DigitOf(c: char)
    requires IsDigit(c)
    ensures DigitValue(c) < 10 && Digit(DigitValue(c)) == c
  {
    assert c in "0123456789";
  }

  lemma {:induction false} DecAppend(n: nat, c: char)
    requires n >= 1 && IsDigit(c)
    ensures Dec(10 * n + DigitValue(c)) == Dec(n) + [c]
  {
    DigitOf(c);
    hide Digit, DigitValue, IsDigit;
  }

  lemma {:induction false} DecOnly(s: string)
    requires AllDigits(s) && s != "" && (|s| > 1 ==> s[0] != '0')
    ensures Dec(DecValue(s)) == s
  {
    hide Dec, Digit, DigitValue, IsDigit;
    var init, c := s[..|s| - 1], s[|s| - 1];
    assert s == init + [c] && IsDigit(s[|s| - 1]);
    if |s| > 1 {
      assert AllDigits(init);
      DecValuePositive(init);
      DecOnly(init);
      DecAppend(DecValue(init), c);
    } else {
      DecOne(s);
    }
  }

  lemma {:induction false} DecOne(s: string)
    requires AllDigits(s) && |s| == 1
    ensures Dec(DecValue(s)) == s
  {
    DigitOf(s[0]);
    assert s[..0] == "" && s == [s[0]];
  }

  /** A printed number is the one string of digits without a leading zero that has its
      value. */
  lemma {:induction false} DecIff(s: string, n: nat)
    ensures s == Dec(n) <==>
            s != "" && AllDigits(s) && (|s| > 1 ==> s[0] != '0') && DecValue(s) == n
  {
    DecLeading(n);
    DecRoundTrip(n);
    if s != "" && AllDigits(s) && (|s| > 1 ==> s[0] != '0') && DecValue(s) == n {
      DecOnly(s);
    }
  }

  lemma DecExample()
    ensures Dec(0) == "0" && Dec(1907) == "1907"
  {
    assert Dec(1) == "1" && Dec(19) == "19" && Dec(190) == "190";
  }

  predicate IsSpace(c: char) {
    c in {' ', '\t', '\n', '\r'} || c == 11 as char || c == 12 as char
  }

  function SkipSpace(s: string): string {
    if s != [] && IsSpace(s[0]) then SkipSpace(s[1..]) else s
  }

  function LeadingDigits(s: string): (r: string)
    ensures AllDigits(r)
  {
    if s != [] && IsDigit(s[0]) then [s[0]] + LeadingDigits(s[1..]) else ""
  }

  /** std::stoi: white space, a sign, then as many digits as there are. None is the
      exception, raised when no digit follows or the value does not fit an int. */
  function Stoi(s: string): Option<int> {
    var t := SkipSpace(s);
    var signed := t != [] && (t[0] == '-' || t[0] == '+');
    var digits := LeadingDigits(if signed then t[1..] else t);
    if digits == "" then None
    else
      var v: int := if signed && t[0] == '-' then 0 - DecValue(digits) else DecValue(digits);
      if -0x8000_0000 <= v < 0x8000_0000 then Some(v) else None
  }

  lemma {:induction false} LeadingDigitsAll(s: string)
    requires AllDigits(s)
    ensures LeadingDigits(s) == s
  {
    if s != [] {
      LeadingDigitsAll(s[1..]);
    }
  }

  /** Reading a printed number gives the number back. */
  lemma {:induction false} StoiDec(n: nat)
    requires n < 0x8000_0000
    ensures Stoi(Dec(n)) == Some(n)
  {
    LeadingDigitsAll(Dec(n));
    DecRoundTrip(n);
    assert IsDigit(Dec(n)[0]);
  }

  lemma {:induction false} SkipSpaceAll(space: string, t: string)
    requires (forall c :: c in space ==> IsSpace(c)) && (t != "" ==> !IsSpace(t[0]))
    ensures SkipSpace(space + t) == t
  {
    if space == "" {
      assert space + t == t;
    } else {
      assert (space + t)[1..] == space[1..] + t && space[0] in space;
      SkipSpaceAll(space[1..], t);
    }
  }

  lemma {:induction false} LeadingDigitsOf(digits: string, rest: string)
    requires AllDigits(digits) && (rest != "" ==> !IsDigit(rest[0]))
    ensures LeadingDigits(digits + rest) == digits
  {
    if digits == "" {
      assert digits + rest == rest;
    } else {
      assert (digits + rest)[1..] == digits[1..] + rest;
      LeadingDigitsOf(digits[1..], rest);
    }
  }

  /** What stoi makes of any text: blanks, at most one sign, the digits up to something
      else; an exception if there are none or the value does not fit 32 bits. */
  lemma {:induction false} StoiReads(space: string, sign: string, digits: string, rest: string)
    requires forall c :: c in space ==> c in " \t\n\r" || c == 11 as char || c == 12 as char
    requires sign == "" || sign == "+" || sign == "-"
    requires AllDigits(digits) && (rest != "" ==> !IsDigit(rest[0]))
    requires digits == "" && sign == "" && rest != "" ==> !IsSpace(rest[0]) && rest[0] != '-' && rest[0] != '+'
    ensures var v: int := if sign == "-" then 0 - DecValue(digits) else DecValue(digits);
            Stoi(space + sign + digits + rest)
            == if digits != "" && -2147483648 <= v <= 2147483647 then Some(v) else None
  {
    hide DecValue;
    var t := sign + digits + rest;
    Assoc(space + sign, digits, rest);
    Assoc(space, sign, digits + rest);
    Assoc(sign, digits, rest);
    SkipSpaceAll(space, t);
    LeadingDigitsOf(digits, rest);
    if sign == "" {
      assert t == digits + rest;
    } else {
      assert t[1..] == digits + rest && t[0] == sign[0];
    }
  }
}
