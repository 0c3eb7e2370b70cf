/**
 * The string operations the ID filter widget relies on (Qt's `QString`
 * calls), on `seq<char>`: splitting and joining on a separator, keeping the
 * characters a regular-expression class allows, counting and dropping a
 * character, decimal printing (`QString::number`) and decimal parsing
 * (`toUShort` / `toUInt`).
 */
module Text {
  import opened PokeRng

  datatype Option<T> = None | Some(value: T)

  // ---------------------------------------------------------------------------
  // Searching for a character
  // ---------------------------------------------------------------------------

  /** `indexOf(c)`: the first position of c. */
  function IndexOf(s: string, c: char): (i: nat)
    requires c in s
    ensures i < |s| && s[i] == c && c !in s[..i]
    decreases |s|
  {
    if s[0] == c then 0
    else
      var j := IndexOf(s[1..], c);
      assert s[..j + 1] == [s[0]] + s[1..][..j];
      j + 1
  }

  /** Any position of c with no c before it is the first one. */
  lemma {:induction false} IndexOfUnique(s: string, c: char, p: nat)
    requires p < |s| && s[p] == c && c !in s[..p]
    ensures IndexOf(s, c) == p
  {
  }

  /** `lastIndexOf(c)`: the last position of c. */
  function LastIndexOf(s: string, c: char): (i: nat)
    requires c in s
    ensures i < |s| && s[i] == c && c !in s[i + 1..]
    decreases |s|
  {
    if s[|s| - 1] == c then |s| - 1
    else
      var i := LastIndexOf(s[..|s| - 1], c);
      assert s[i + 1..] == s[..|s| - 1][i + 1..] + [s[|s| - 1]];
      i
  }

  // ---------------------------------------------------------------------------
  // split / join
  // ---------------------------------------------------------------------------

  /** `split(c)`: the pieces between occurrences of c, empty pieces included. */
  function Split(s: string, c: char): (parts: seq<string>)
    ensures |parts| >= 1
    ensures forall k :: 0 <= k < |parts| ==> c !in parts[k]
    ensures |parts| == 1 <==> c !in s
    decreases |s|
  {
    if c !in s then [s]
    else
      var i := IndexOf(s, c);
      [s[..i]] + Split(s[i + 1..], c)
  }

  /** `join(c)`: the pieces with c between consecutive ones. */
  function Join(parts: seq<string>, c: char): string
    requires |parts| >= 1
    decreases |parts|
  {
    if |parts| == 1 then parts[0] else parts[0] + [c] + Join(parts[1..], c)
  }

  /** Joining the pieces of a split gives the text back. */
  lemma {:induction false} JoinSplit(s: string, c: char)
    ensures Join(Split(s, c), c) == s
    decreases |s|
  {
    if c in s {
      var i := IndexOf(s, c);
      JoinSplit(s[i + 1..], c);
      var parts := Split(s, c);
      assert parts[1..] == Split(s[i + 1..], c);
      assert s == s[..i] + [c] + s[i + 1..];
    }
  }

  lemma {:induction false} IndexOfJoined(a: string, c: char, b: string)
    requires c !in a
    ensures IndexOf(a + [c] + b, c) == |a|
  {
    var s := a + [c] + b;
    assert s[..|a|] == a;
    IndexOfUnique(s, c, |a|);
  }

  /** A c-free piece followed by c splits off as the first piece. */
  lemma SplitCons(a: string, c: char, rest: string)
    requires c !in a
    ensures Split(a + [c] + rest, c) == [a] + Split(rest, c)
  {
    var s := a + [c] + rest;
    assert s[|a|] == c;
    IndexOfJoined(a, c, rest);
    assert s[..|a|] == a && s[|a| + 1..] == rest;
  }

  /** Splitting the join of pieces free of c gives the pieces back. */
  lemma {:induction false} SplitJoin(parts: seq<string>, c: char)
    requires |parts| >= 1
    requires forall k :: 0 <= k < |parts| ==> c !in parts[k]
    ensures Split(Join(parts, c), c) == parts
    decreases |parts|
  {
    if |parts| > 1 {
      SplitCons(parts[0], c, Join(parts[1..], c));
      SplitJoin(parts[1..], c);
      assert parts == [parts[0]] + parts[1..];
    }
  }

  /** A text with one c between two c-free pieces splits into those two pieces. */
  lemma SplitPair(a: string, c: char, b: string)
    requires c !in a && c !in b
    ensures Split(a + [c] + b, c) == [a, b]
  {
    SplitJoin([a, b], c);
  }

  // ---------------------------------------------------------------------------
  // Counting and removing a character
  // ---------------------------------------------------------------------------

  /** `count(c)`. */
  function Count(s: string, c: char): nat
    decreases |s|
  {
    if s == [] then 0 else (if s[0] == c then 1 else 0) + Count(s[1..], c)
  }

  lemma {:induction false} CountAppend(a: string, b: string, c: char)
    ensures Count(a + b, c) == Count(a, c) + Count(b, c)
    decreases |a|
  {
    if a != [] {
      assert (a + b)[1..] == a[1..] + b;
      CountAppend(a[1..], b, c);
    } else {
      assert a + b == b;
    }
  }

  lemma {:induction false} CountZero(s: string, c: char)
    ensures Count(s, c) == 0 <==> c !in s
    decreases |s|
  {
    if s != [] {
      CountZero(s[1..], c);
      assert s == [s[0]] + s[1..];
    }
  }

  /** s with every c removed. */
  function Without(s: string, c: char): (r: string)
    ensures |r| == |s| - Count(s, c)
    decreases |s|
  {
    if s == [] then [] else (if s[0] == c then [] else [s[0]]) + Without(s[1..], c)
  }

  lemma {:induction false} WithoutAppend(a: string, b: string, c: char)
    ensures Without(a + b, c) == Without(a, c) + Without(b, c)
    decreases |a|
  {
    if a != [] {
      assert (a + b)[1..] == a[1..] + b;
      WithoutAppend(a[1..], b, c);
    } else {
      assert a + b == b;
    }
  }

  lemma {:induction false} WithoutAbsent(s: string, c: char)
    requires c !in s
    ensures Without(s, c) == s
    decreases |s|
  {
    if s != [] {
      assert c !in s[1..];
      WithoutAbsent(s[1..], c);
    }
  }

  // ---------------------------------------------------------------------------
  // Character classes
  // ---------------------------------------------------------------------------

  predicate IsDigit(c: char) {
    '0' <= c <= '9'
  }

  predicate AllDigits(s: string) {
    forall i :: 0 <= i < |s| ==> IsDigit(s[i])
  }

  /** The class `[0-9]`, or `[0-9/]` when `slash` is set. */
  predicate Allowed(c: char, slash: bool) {
    IsDigit(c) || (slash && c == '/')
  }

  predicate AllAllowed(s: string, slash: bool) {
    forall i :: 0 <= i < |s| ==> Allowed(s[i], slash)
  }

  /** `remove(QRegularExpression("[^0-9]"))` (or `"[^0-9/]"`): keep the allowed characters, in order. */
  function Keep(s: string, slash: bool): (r: string)
    ensures |r| <= |s|
    ensures AllAllowed(r, slash)
    ensures forall c :: Allowed(c, slash) ==> Count(r, c) == Count(s, c)
    decreases |s|
  {
    if s == [] then []
    else
      var rest := Keep(s[1..], slash);
      var r := (if Allowed(s[0], slash) then [s[0]] else []) + rest;
      assert forall c :: Allowed(c, slash) ==> Count(r, c) == Count(s, c) by {
        forall c | Allowed(c, slash)
          ensures Count(r, c) == Count(s, c)
        {
          assert Count(s, c) == (if s[0] == c then 1 else 0) + Count(s[1..], c);
          assert Count(rest, c) == Count(s[1..], c);
          if Allowed(s[0], slash) {
            assert r[0] == s[0] && r[1..] == rest;
          } else {
            assert r == rest && s[0] != c;
          }
        }
      }
      r
  }

  /** Filtering works character by character: the kept text of a + b is a's followed by b's. */
  lemma {:induction false} KeepAppend(a: string, b: string, slash: bool)
    ensures Keep(a + b, slash) == Keep(a, slash) + Keep(b, slash)
    decreases |a|
  {
    if a != [] {
      var head := if Allowed(a[0], slash) then [a[0]] else [];
      var ab := a + b;
      assert ab[0] == a[0] && ab[1..] == a[1..] + b;
      assert Keep(ab, slash) == head + Keep(ab[1..], slash);
      KeepAppend(a[1..], b, slash);
      assert Keep(a, slash) == head + Keep(a[1..], slash);
    } else {
      assert a + b == b;
    }
  }

  /** Removing the disallowed characters of a text that has none changes nothing. */
  lemma {:induction false} KeepAllowed(s: string, slash: bool)
    requires AllAllowed(s, slash)
    ensures Keep(s, slash) == s
    decreases |s|
  {
    if s != [] {
      KeepAllowed(s[1..], slash);
      assert s == [s[0]] + s[1..];
    }
  }

  // ---------------------------------------------------------------------------
  // Decimal numbers
  // ---------------------------------------------------------------------------

  function DigitValue(c: char): (d: nat)
    requires IsDigit(c)
    ensures d < 10
  {
    c as int - '0' as int
  }

  function DigitChar(d: nat): (c: char)
    requires d < 10
    ensures IsDigit(c) && DigitValue(c) == d
  {
    ('0' as int + d) as char
  }

  /** The value of a string of decimal digits, most significant first. */
  function Value(s: string): nat
    requires AllDigits(s)
    decreases |s|
  {
    if s == [] then 0 else 10 * Value(s[..|s| - 1]) + DigitValue(s[|s| - 1])
  }

  /** `QString::number(n)`: n in decimal. */
  function Decimal(n: nat): (s: string)
    ensures |s| >= 1 && AllDigits(s)
    decreases n
  {
    if n < 10 then [DigitChar(n)] else Decimal(n / 10) + [DigitChar(n % 10)]
  }

  /** A decimal numeral without leading zeros. */
  predicate Canonical(s: string) {
    |s| >= 1 && AllDigits(s) && (s[0] == '0' ==> |s| == 1)
  }

  /** Printing gives a numeral without leading zeros, starting with '0' only for zero. */
  lemma {:induction false} DecimalCanonical(n: nat)
    ensures Canonical(Decimal(n))
    ensures Decimal(n)[0] == '0' <==> n == 0
    decreases n
  {
    if n >= 10 {
      DecimalCanonical(n / 10);
    }
  }

  /** Parsing what was printed gives the number back. */
  lemma {:induction false} ValueOfDecimal(n: nat)
    ensures Value(Decimal(n)) == n
    decreases n
  {
    var s := Decimal(n);
    if n >= 10 {
      ValueOfDecimal(n / 10);
      assert s[..|s| - 1] == Decimal(n / 10);
    } else {
      assert s[..0] == [];
    }
  }

  lemma {:induction false} CanonicalPositive(s: string)
    requires Canonical(s) && s[0] != '0'
    ensures Value(s) >= 1
    decreases |s|
  {
    if |s| > 1 {
      CanonicalPositive(s[..|s| - 1]);
    } else {
      assert s[..0] == [];
    }
  }

  /** Printing the value of a numeral without leading zeros gives the numeral back. */
  lemma {:induction false} DecimalOfValue(s: string)
    requires Canonical(s)
    ensures Decimal(Value(s)) == s
    decreases |s|
  {
    var init, last := s[..|s| - 1], s[|s| - 1];
    if |s| == 1 {
      assert init == [];
      assert DigitChar(DigitValue(last)) == last;
    } else {
      assert init[0] == s[0] != '0';
      CanonicalPositive(init);
      DecimalOfValue(init);
      var v := Value(s);
      assert v == 10 * Value(init) + DigitValue(last);
      assert v / 10 == Value(init) && v % 10 == DigitValue(last);
      assert DigitChar(DigitValue(last)) == last;
      assert s == init + [last];
    }
  }

  /** `toUShort(&ok)`: fails on anything but a non-empty digit string of value at most 65535. */
  function ToUShort(s: string): (r: Option<u16>)
    ensures r.Some? <==> |s| > 0 && AllDigits(s) && Value(s) <= 0xFFFF
    ensures r.Some? ==> r.value == Value(s)
  {
    if |s| > 0 && AllDigits(s) && Value(s) <= 0xFFFF then Some(Value(s)) else None
  }

  /** `toUInt(&ok)`: as `toUShort`, up to 4294967295. */
  function ToUInt(s: string): (r: Option<u32>)
    ensures r.Some? <==> |s| > 0 && AllDigits(s) && Value(s) <= 0xFFFF_FFFF
    ensures r.Some? ==> r.value == Value(s)
  {
    if |s| > 0 && AllDigits(s) && Value(s) <= 0xFFFF_FFFF then Some(Value(s)) else None
  }

  /** Parsing what `QString::number` printed gives the number back, within the 16-bit range. */
  lemma ToUShortDecimal(n: nat)
    ensures n <= 0xFFFF ==> ToUShort(Decimal(n)) == Some(n)
    ensures n > 0xFFFF ==> ToUShort(Decimal(n)) == None
  {
    DecimalCanonical(n);
    ValueOfDecimal(n);
  }

  /** `ok ? val : fallback` after `toUShort(&ok)`; plain `toUShort()` is the fallback 0. */
  function UShortOr(s: string, fallback: u16): u16 {
    match ToUShort(s)
    case Some(v) => v
    case None => fallback
  }

  function Min(a: nat, b: nat): nat {
    if a <= b then a else b
  }
}
