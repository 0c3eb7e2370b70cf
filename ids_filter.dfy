/**
 * The trainer-ID filter widget (`IDsFilter`): two multi-line text boxes, one
 * of IDs and one of TSVs, that are rewritten line by line into canonical
 * decimal form whenever they change, and the `IDFilter` built from them.
 *
 * The checked radio button is the `mode` field; the text boxes are the
 * `idsText` and `tsvText` fields.
 */
module IdsFilter {
  import opened PokeRng
  import opened Text

  /** Which radio button is checked: TID, SID, TID/SID or display TID. */
  datatype Mode = TID | SID | TIDSID | DisplayTID

  /** `IDFilter(tidFilter, sidFilter, tsvFilter, displayFilter)`. */
  datatype IDFilter = IDFilter(tidFilter: seq<u16>, sidFilter: seq<u16>, tsvFilter: seq<u16>, displayFilter: seq<u32>)

  // ---------------------------------------------------------------------------
  // One line of the ID box or the TSV box
  // ---------------------------------------------------------------------------

  /** TID or SID mode: digits only, re-printed, 65535 when they do not parse as a u16. */
  function IdLine(line: string): (r: string)
    ensures AllDigits(r)
    ensures r == [] <==> Keep(line, false) == []
  {
    var d := Keep(line, false);
    if d == [] then d else Decimal(UShortOr(d, 0xFFFF))
  }

  /** Display-TID mode as written: the digits go through `toUShort`, and 999999 replaces a failure. */
  function DisplayLineAsWritten(line: string): (r: string)
    ensures AllDigits(r)
    ensures r == [] <==> Keep(line, false) == []
  {
    var d := Keep(line, false);
    if d == [] then d
    else
      var p := ToUShort(d);
      Decimal(if p.Some? && p.value <= 999999 then p.value else 999999)
  }

  /** Display-TID mode parsed with `toUInt`, so six-digit display IDs survive. */
  function DisplayLine(line: string): (r: string)
    ensures AllDigits(r)
    ensures r == [] <==> Keep(line, false) == []
  {
    var d := Keep(line, false);
    if d == [] then d
    else
      var p := ToUInt(d);
      Decimal(if p.Some? && p.value <= 999999 then p.value else 999999)
  }

  /** A TSV line: digits only, re-printed, 8191 when larger or not a u16. */
  function TsvLine(line: string): (r: string)
    ensures AllDigits(r)
    ensures r == [] <==> Keep(line, false) == []
  {
    var d := Keep(line, false);
    if d == [] then d
    else
      var p := ToUShort(d);
      Decimal(if p.Some? && p.value <= 8191 then p.value else 8191)
  }

  /** The 16-bit value the TID/SID mode gives a part: 65535 for an empty or oversized part. */
  function Clamp16(s: string): nat
    requires AllDigits(s)
  {
    if s == [] then 0xFFFF else Min(Value(s), 0xFFFF)
  }

  /**
   * TID/SID mode after the extra slashes are gone: a bare number is
   * re-printed, `tid/sid` with a non-empty second part is re-printed as two
   * clamped numbers, and a trailing `/` with nothing after it is left as is.
   * A single part means the input has no `/`, so the source's `"%1/"` form
   * for that case is never produced and is not modelled.
   */
  function CombinedParts(input: string): (r: string)
    ensures r == [] <==> input == []
  {
    if input == [] then input
    else
      var ids := Split(input, '/');
      var tid := UShortOr(ids[0], 0xFFFF);
      if |ids| == 1 then Decimal(tid)
      else if ids[1] != [] then Decimal(tid) + "/" + Decimal(UShortOr(ids[1], 0xFFFF))
      else input
  }

  /** The characters of s, keeping only the first `/`. */
  function KeepFirstSlash(s: string): (r: string)
    ensures |r| <= |s|
    ensures '/' in r <==> '/' in s
  {
    if '/' !in s then s
    else
      var p := IndexOf(s, '/');
      var r := s[..p + 1] + Without(s[p + 1..], '/');
      assert r[p] == '/';
      r
  }

  /** TID/SID mode: digits and slashes only, at most one slash, then `CombinedParts`. */
  function CombinedLine(line: string): string {
    CombinedParts(KeepFirstSlash(Keep(line, true)))
  }

  /** One line of the ID box in the given mode. */
  function IdsLine(mode: Mode, line: string): string {
    match mode
    case TID => IdLine(line)
    case SID => IdLine(line)
    case DisplayTID => DisplayLine(line)
    case TIDSID => CombinedLine(line)
  }

  // ---------------------------------------------------------------------------
  // What the line rewrites promise
  // ---------------------------------------------------------------------------

  /** TID / SID lines: empty exactly when there are no digits, else the digits' value capped at 65535. */
  lemma IdLineClamps(line: string)
    ensures IdLine(line) == [] <==> Keep(line, false) == []
    ensures Keep(line, false) != [] ==>
              Canonical(IdLine(line)) && Value(IdLine(line)) == Min(Value(Keep(line, false)), 0xFFFF)
  {
    var d := Keep(line, false);
    if d != [] {
      var v := UShortOr(d, 0xFFFF);
      assert v == Min(Value(d), 0xFFFF);
      DecimalCanonical(v);
      ValueOfDecimal(v);
    }
  }

  /** TSV lines: empty exactly when there are no digits, else the digits' value capped at 8191. */
  lemma TsvLineClamps(line: string)
    ensures TsvLine(line) == [] <==> Keep(line, false) == []
    ensures Keep(line, false) != [] ==>
              Canonical(TsvLine(line)) && Value(TsvLine(line)) == Min(Value(Keep(line, false)), 8191)
  {
    var d := Keep(line, false);
    if d != [] {
      var p := ToUShort(d);
      var v := if p.Some? && p.value <= 8191 then p.value else 8191;
      assert v == Min(Value(d), 8191);
      DecimalCanonical(v);
      ValueOfDecimal(v);
    }
  }

  /** As written, display-TID lines keep values up to 65535 and turn every larger one into 999999. */
  lemma DisplayLineAsWrittenClamps(line: string)
    ensures DisplayLineAsWritten(line) == [] <==> Keep(line, false) == []
    ensures Keep(line, false) != [] ==>
              Canonical(DisplayLineAsWritten(line))
              && Value(DisplayLineAsWritten(line))
                 == (if Value(Keep(line, false)) <= 0xFFFF then Value(Keep(line, false)) else 999999)
  {
    var d := Keep(line, false);
    if d != [] {
      var p := ToUShort(d);
      var v := if p.Some? && p.value <= 999999 then p.value else 999999;
      DecimalCanonical(v);
      ValueOfDecimal(v);
    }
  }

  /** The display TID 100000 (six digits, below 999999) is rewritten to 999999 as written. */
  lemma DisplayLineAsWrittenLoses100000()
    ensures DisplayLineAsWritten("100000") == "999999"
  {
    var s := "100000";
    Printed100000();
    assert AllAllowed(s, false);
    KeepAllowed(s, false);
    ToUShortDecimal(100000);
    Printed999999();
  }

  /** `QString::number(100000)`. */
  lemma Printed100000()
    ensures Decimal(100000) == "100000"
  {
    assert Decimal(1) == "1";
    assert Decimal(10) == "10";
    assert Decimal(100) == "100";
    assert Decimal(1000) == "1000";
    assert Decimal(10000) == "10000";
  }

  /** `QString::number(999999)`. */
  lemma Printed999999()
    ensures Decimal(999999) == "999999"
  {
    assert Decimal(9) == "9";
    assert Decimal(99) == "99";
    assert Decimal(999) == "999";
    assert Decimal(9999) == "9999";
    assert Decimal(99999) == "99999";
  }

  /** Display-TID lines (parsed as u32): the digits' value capped at 999999. */
  lemma DisplayLineClamps(line: string)
    ensures DisplayLine(line) == [] <==> Keep(line, false) == []
    ensures Keep(line, false) != [] ==>
              Canonical(DisplayLine(line)) && Value(DisplayLine(line)) == Min(Value(Keep(line, false)), 999999)
  {
    var d := Keep(line, false);
    if d != [] {
      var p := ToUInt(d);
      var v := if p.Some? && p.value <= 999999 then p.value else 999999;
      assert v == Min(Value(d), 999999);
      DecimalCanonical(v);
      ValueOfDecimal(v);
    }
  }

  /** Keeping the first slash leaves every character allowed and at most one slash. */
  lemma KeepFirstSlashShape(s: string)
    requires AllAllowed(s, true)
    ensures AllAllowed(KeepFirstSlash(s), true)
    ensures Count(KeepFirstSlash(s), '/') <= 1
    ensures '/' in KeepFirstSlash(s) <==> '/' in s
  {
    if '/' in s {
      var p := IndexOf(s, '/');
      FirstSlashAllowed(s, p);
      FirstSlashCount(s, p);
    } else {
      CountZero(s, '/');
    }
  }

  /** The text up to the first slash, then the rest without slashes, holds only allowed characters. */
  lemma FirstSlashAllowed(s: string, p: nat)
    requires AllAllowed(s, true) && '/' in s && p == IndexOf(s, '/')
    ensures AllAllowed(s[..p + 1] + Without(s[p + 1..], '/'), true)
  {
    var rest := Without(s[p + 1..], '/');
    WithoutShape(s[p + 1..], '/');
    var r := s[..p + 1] + rest;
    forall i | 0 <= i < |r|
      ensures Allowed(r[i], true)
    {
      if i > p {
        assert r[i] == rest[i - (p + 1)];
        assert r[i] in s[p + 1..];
      }
    }
  }

  /** The text up to the first slash, then the rest without slashes, holds exactly one slash. */
  lemma FirstSlashCount(s: string, p: nat)
    requires '/' in s && p == IndexOf(s, '/')
    ensures Count(s[..p + 1] + Without(s[p + 1..], '/'), '/') == 1
  {
    var rest := Without(s[p + 1..], '/');
    WithoutShape(s[p + 1..], '/');
    CountZero(rest, '/');
    CountZero(s[..p], '/');
    assert s[..p + 1] == s[..p] + ['/'];
    CountAppend(s[..p], ['/'], '/');
    CountAppend(s[..p + 1], rest, '/');
    assert Count(['/'], '/') == 1 by {
      assert ['/'][1..] == [];
    }
  }

  /** Removing c leaves no c and only characters of s. */
  lemma {:induction false} WithoutShape(s: string, c: char)
    ensures c !in Without(s, c)
    ensures forall i :: 0 <= i < |Without(s, c)| ==> Without(s, c)[i] in s
    decreases |s|
  {
    if s != [] {
      WithoutShape(s[1..], c);
      var w := Without(s[1..], c);
      forall i | 0 <= i < |w|
        ensures w[i] in s
      {
        assert w[i] in s[1..];
      }
    }
  }

  /** A TID/SID line keeps only digits and at most one slash. */
  lemma CombinedLineShape(line: string)
    ensures AllAllowed(CombinedLine(line), true)
    ensures Count(CombinedLine(line), '/') <= 1
    ensures CombinedLine(line) == [] <==> Keep(line, true) == []
  {
    var k := Keep(line, true);
    KeepFirstSlashShape(k);
    var t := KeepFirstSlash(k);
    if t != [] {
      var ids := Split(t, '/');
      var tid := UShortOr(ids[0], 0xFFFF);
      if |ids| == 1 {
        CountZero(Decimal(tid), '/');
      } else if ids[1] != [] {
        var sid := UShortOr(ids[1], 0xFFFF);
        var r := Decimal(tid) + "/" + Decimal(sid);
        CountZero(Decimal(tid), '/');
        CountZero(Decimal(sid), '/');
        CountAppend(Decimal(tid), "/", '/');
        CountAppend(Decimal(tid) + "/", Decimal(sid), '/');
        assert forall i :: 0 <= i < |r| ==> Allowed(r[i], true) by {
          forall i | 0 <= i < |r|
            ensures Allowed(r[i], true)
          {
            if i > |Decimal(tid)| {
              assert r[i] == Decimal(sid)[i - |Decimal(tid)| - 1];
            }
          }
        }
      }
    }
  }

  /** Two digit parts joined by a slash, the second non-empty, become `tid/sid`, each clamped to 65535. */
  lemma CombinedLinePair(a: string, b: string)
    requires AllDigits(a) && AllDigits(b) && b != []
    ensures CombinedLine(a + "/" + b) == Decimal(Clamp16(a)) + "/" + Decimal(Clamp16(b))
  {
    var s := a + "/" + b;
    assert '/' !in a && '/' !in b;
    assert AllAllowed(s, true);
    KeepAllowed(s, true);
    IndexOfJoined(a, '/', b);
    assert s[..|a| + 1] == a + "/" && s[|a| + 1..] == b;
    WithoutAbsent(b, '/');
    assert KeepFirstSlash(s) == s;
    SplitPair(a, '/', b);
  }

  /** A digit part followed by one trailing slash is left untouched. */
  lemma CombinedLineTrailingSlash(a: string)
    requires AllDigits(a)
    ensures CombinedLine(a + "/") == a + "/"
  {
    var s := a + "/";
    assert '/' !in a;
    assert AllAllowed(s, true);
    KeepAllowed(s, true);
    IndexOfJoined(a, '/', []);
    assert s[..|a| + 1] == s && s[|a| + 1..] == [];
    assert KeepFirstSlash(s) == s;
    assert s == a + ['/'] + [];
    SplitPair(a, '/', []);
  }

  /** Rewriting a line that was already rewritten changes nothing, in every mode. */
  lemma IdsLineIdempotent(mode: Mode, line: string)
    ensures IdsLine(mode, IdsLine(mode, line)) == IdsLine(mode, line)
  {
    match mode
    case TID => IdLineIdempotent(line);
    case SID => IdLineIdempotent(line);
    case DisplayTID => DisplayLineIdempotent(line);
    case TIDSID => CombinedLineIdempotent(line);
  }

  lemma IdLineIdempotent(line: string)
    ensures IdLine(IdLine(line)) == IdLine(line)
  {
    var r := IdLine(line);
    if r != [] {
      var v := UShortOr(Keep(line, false), 0xFFFF);
      KeepAllowed(r, false);
      ValueOfDecimal(v);
    }
  }

  lemma DisplayLineIdempotent(line: string)
    ensures DisplayLine(DisplayLine(line)) == DisplayLine(line)
  {
    var r := DisplayLine(line);
    if r != [] {
      var d := Keep(line, false);
      var p := ToUInt(d);
      var v := if p.Some? && p.value <= 999999 then p.value else 999999;
      KeepAllowed(r, false);
      ValueOfDecimal(v);
    }
  }

  lemma TsvLineIdempotent(line: string)
    ensures TsvLine(TsvLine(line)) == TsvLine(line)
  {
    var r := TsvLine(line);
    if r != [] {
      var d := Keep(line, false);
      var p := ToUShort(d);
      var v := if p.Some? && p.value <= 8191 then p.value else 8191;
      KeepAllowed(r, false);
      ValueOfDecimal(v);
    }
  }

  lemma CombinedLineIdempotent(line: string)
    ensures CombinedLine(CombinedLine(line)) == CombinedLine(line)
  {
    var t := KeepFirstSlash(Keep(line, true));
    if t != [] {
      var ids := Split(t, '/');
      var tid := UShortOr(ids[0], 0xFFFF);
      ValueOfDecimal(tid);
      if |ids| == 1 {
        var r := Decimal(tid);
        assert '/' !in r;
        KeepAllowed(r, true);
        assert Split(r, '/') == [r];
      } else if ids[1] != [] {
        var sid := UShortOr(ids[1], 0xFFFF);
        ValueOfDecimal(sid);
        assert Decimal(tid) + "/" + Decimal(sid) == Decimal(tid) + ['/'] + Decimal(sid);
        CombinedLinePair(Decimal(tid), Decimal(sid));
      } else {
        KeepFirstSlashShape(Keep(line, true));
        SplitPrefix(t, IndexOf(t, '/'));
        assert t == ids[0] + "/";
        CombinedLineTrailingSlash(ids[0]);
      }
    }
  }

  /** When the text after the first slash is empty, the first piece is everything before it. */
  lemma SplitPrefix(t: string, p: nat)
    requires '/' in t && p == IndexOf(t, '/') && Split(t, '/')[1] == []
    requires AllAllowed(t, true) && Count(t, '/') <= 1
    ensures AllDigits(Split(t, '/')[0]) && t == Split(t, '/')[0] + "/"
  {
    var rest := t[p + 1..];
    SlashCount(t, p);
    CountZero(rest, '/');
    assert Split(t, '/') == [t[..p]] + Split(rest, '/');
    assert rest == [];
    assert t == t[..p] + "/";
    assert forall i :: 0 <= i < p ==> t[..p][i] == t[i] && t[i] != '/';
  }

  // ---------------------------------------------------------------------------
  // The extra-slash loop and the per-line rewrite
  // ---------------------------------------------------------------------------

  /** `while (input.count('/') > 1) input.remove(input.lastIndexOf('/'), 1);` */
  method DropExtraSlashes(s0: string) returns (s: string)
    ensures s == KeepFirstSlash(s0)
  {
    s := s0;
    if '/' !in s0 {
      CountZero(s0, '/');
      return;
    }
    ghost var p := IndexOf(s0, '/');
    assert s[..p + 1] == s0[..p + 1];
    while Count(s, '/') > 1
      invariant DropsFrom(s0, s, p)
      decreases |s|
    {
      assert '/' in s;
      var i := LastIndexOf(s, '/');
      DropStep(s0, s, p, i);
      s := s[..i] + s[i + 1..];
    }
    DropDone(s0, s, p);
  }

  /** The loop's text keeps s0 up to its first slash at p, and the slash-free rest of s0. */
  ghost predicate DropsFrom(s0: string, s: string, p: nat) {
    && p < |s| && p < |s0| && s[..p + 1] == s0[..p + 1] && s[p] == '/' && '/' !in s[..p]
    && Without(s[p + 1..], '/') == Without(s0[p + 1..], '/')
  }

  /** Removing the last of two or more slashes keeps the loop's invariant. */
  lemma DropStep(s0: string, s: string, p: nat, i: nat)
    requires DropsFrom(s0, s, p) && Count(s, '/') > 1 && '/' in s && i == LastIndexOf(s, '/')
    ensures i > p && DropsFrom(s0, s[..i] + s[i + 1..], p)
  {
    assert i > p by {
      SlashCount(s, p);
      CountZero(s[p + 1..], '/');
      var j := IndexOf(s[p + 1..], '/');
      assert s[p + 1 + j] == '/';
    }
    DropAt(s, p, i);
    var t := s[..i] + s[i + 1..];
    assert t[..p + 1] == s0[..p + 1];
    assert t[p] == s[p] && t[..p] == s[..p];
  }

  /** With at most one slash left, the loop's text is s0 with only its first slash. */
  lemma DropDone(s0: string, s: string, p: nat)
    requires '/' in s0 && p == IndexOf(s0, '/')
    requires DropsFrom(s0, s, p) && Count(s, '/') <= 1
    ensures s == KeepFirstSlash(s0)
  {
    var rest := s[p + 1..];
    assert Without(rest, '/') == rest by {
      SlashCount(s, p);
      CountZero(rest, '/');
      WithoutAbsent(rest, '/');
    }
    assert KeepFirstSlash(s0) == s0[..p + 1] + Without(s0[p + 1..], '/');
    assert s == s[..p + 1] + rest;
  }

  /** The slashes of s: the one at p, none before it, and those after it. */
  lemma SlashCount(s: string, p: nat)
    requires p < |s| && s[p] == '/' && '/' !in s[..p]
    ensures Count(s, '/') == 1 + Count(s[p + 1..], '/')
  {
    assert s == s[..p] + ([s[p]] + s[p + 1..]);
    CountAppend(s[..p], [s[p]] + s[p + 1..], '/');
    CountAppend([s[p]], s[p + 1..], '/');
    CountZero(s[..p], '/');
    assert [s[p]][1..] == [];
  }

  /** Dropping a slash after position p keeps the text up to p and the rest without slashes. */
  lemma DropAt(s: string, p: nat, i: nat)
    requires p < i < |s| && s[i] == '/'
    ensures (s[..i] + s[i + 1..])[..p + 1] == s[..p + 1]
    ensures Without((s[..i] + s[i + 1..])[p + 1..], '/') == Without(s[p + 1..], '/')
  {
    var t := s[..i] + s[i + 1..];
    assert t[p + 1..] == s[p + 1..i] + s[i + 1..];
    assert s[p + 1..] == s[p + 1..i] + ([s[i]] + s[i + 1..]);
    WithoutAppend(s[p + 1..i], s[i + 1..], '/');
    WithoutAppend(s[p + 1..i], [s[i]] + s[i + 1..], '/');
    assert Without([s[i]] + s[i + 1..], '/') == Without(s[i + 1..], '/') by {
      assert ([s[i]] + s[i + 1..])[1..] == s[i + 1..];
    }
  }

  /** TID/SID mode for one line, with the slash loop. */
  method NormalizeCombined(line: string) returns (out: string)
    ensures out == CombinedLine(line)
  {
    var input := Keep(line, true);
    input := DropExtraSlashes(input);
    out := CombinedParts(input);
  }

  /** The body of the `for (QString &input : inputs)` loop of the ID box, in the given mode. */
  method NormalizeIdsLine(mode: Mode, line: string) returns (out: string)
    ensures out == IdsLine(mode, line)
  {
    match mode {
      case TID => out := IdLine(line);
      case SID => out := IdLine(line);
      case DisplayTID => out := DisplayLine(line);
      case TIDSID => out := NormalizeCombined(line);
    }
  }

  // ---------------------------------------------------------------------------
  // Whole boxes
  // ---------------------------------------------------------------------------

  /** Each line of the ID box rewritten in the given mode. */
  function IdsLines(mode: Mode, lines: seq<string>): (r: seq<string>)
    ensures |r| == |lines|
    ensures forall j :: 0 <= j < |r| ==> r[j] == IdsLine(mode, lines[j])
  {
    seq(|lines|, j requires 0 <= j < |lines| => IdsLine(mode, lines[j]))
  }

  /** Each line of the TSV box rewritten. */
  function TsvLines(lines: seq<string>): (r: seq<string>)
    ensures |r| == |lines|
    ensures forall j :: 0 <= j < |r| ==> r[j] == TsvLine(lines[j])
  {
    seq(|lines|, j requires 0 <= j < |lines| => TsvLine(lines[j]))
  }

  /** The ID box after `textEditIDsTextChanged`. */
  function NormalizedIds(mode: Mode, text: string): string {
    Join(IdsLines(mode, Split(text, '\n')), '\n')
  }

  /** The TSV box after `textEditTSVTextChanged`. */
  function NormalizedTsv(text: string): string {
    Join(TsvLines(Split(text, '\n')), '\n')
  }

  lemma IdsLineNoNewline(mode: Mode, line: string)
    ensures '\n' !in IdsLine(mode, line)
  {
    var r := IdsLine(mode, line);
    if mode == TIDSID {
      CombinedLineShape(line);
    }
  }

  /**
   * The ID box keeps its line structure: as many lines as before, line j is
   * line j rewritten, and an empty line stays empty.
   */
  lemma IdsKeepLines(mode: Mode, text: string)
    ensures |Split(NormalizedIds(mode, text), '\n')| == |Split(text, '\n')|
    ensures forall j :: 0 <= j < |Split(text, '\n')| ==>
              Split(NormalizedIds(mode, text), '\n')[j] == IdsLine(mode, Split(text, '\n')[j])
    ensures forall j :: 0 <= j < |Split(text, '\n')| && Split(text, '\n')[j] == [] ==>
              Split(NormalizedIds(mode, text), '\n')[j] == []
  {
    var lines := IdsLines(mode, Split(text, '\n'));
    forall k | 0 <= k < |lines|
      ensures '\n' !in lines[k]
    {
      IdsLineNoNewline(mode, Split(text, '\n')[k]);
    }
    SplitJoin(lines, '\n');
  }

  /** The TSV box keeps its line structure in the same way. */
  lemma TsvKeepLines(text: string)
    ensures |Split(NormalizedTsv(text), '\n')| == |Split(text, '\n')|
    ensures forall j :: 0 <= j < |Split(text, '\n')| ==>
              Split(NormalizedTsv(text), '\n')[j] == TsvLine(Split(text, '\n')[j])
    ensures forall j :: 0 <= j < |Split(text, '\n')| && Split(text, '\n')[j] == [] ==>
              Split(NormalizedTsv(text), '\n')[j] == []
  {
    var lines := TsvLines(Split(text, '\n'));
    forall k | 0 <= k < |lines|
      ensures '\n' !in lines[k]
    {
      assert AllDigits(TsvLine(Split(text, '\n')[k]));
    }
    SplitJoin(lines, '\n');
  }

  /** Rewriting the ID box a second time changes nothing. */
  lemma IdsIdempotent(mode: Mode, text: string)
    ensures NormalizedIds(mode, NormalizedIds(mode, text)) == NormalizedIds(mode, text)
  {
    var once := NormalizedIds(mode, text);
    IdsKeepLines(mode, text);
    var lines := Split(once, '\n');
    forall j | 0 <= j < |lines|
      ensures IdsLine(mode, lines[j]) == lines[j]
    {
      IdsLineIdempotent(mode, Split(text, '\n')[j]);
    }
    assert IdsLines(mode, lines) == lines;
    JoinSplit(once, '\n');
  }

  /** Rewriting the TSV box a second time changes nothing. */
  lemma TsvIdempotent(text: string)
    ensures NormalizedTsv(NormalizedTsv(text)) == NormalizedTsv(text)
  {
    var once := NormalizedTsv(text);
    TsvKeepLines(text);
    var lines := Split(once, '\n');
    forall j | 0 <= j < |lines|
      ensures TsvLine(lines[j]) == lines[j]
    {
      TsvLineIdempotent(Split(text, '\n')[j]);
    }
    assert TsvLines(lines) == lines;
    JoinSplit(once, '\n');
  }

  // ---------------------------------------------------------------------------
  // Building the filter
  // ---------------------------------------------------------------------------

  /** The non-empty lines, in order. */
  function NonEmpty(lines: seq<string>): (r: seq<string>)
    ensures forall k :: 0 <= k < |r| ==> r[k] != []
    ensures |r| <= |lines|
    decreases |lines|
  {
    if lines == [] then []
    else
      var init, last := lines[..|lines| - 1], lines[|lines| - 1];
      NonEmpty(init) + (if last == [] then [] else [last])
  }

  /** Which part of a line an entry is parsed from: all of it, or the piece before or after `/`. */
  datatype Part = Whole | BeforeSlash | AfterSlash

  function PartOf(line: string, part: Part): string {
    match part
    case Whole => line
    case BeforeSlash => Split(line, '/')[0]
    case AfterSlash => var ids := Split(line, '/'); if |ids| >= 2 then ids[1] else []
  }

  /** One `toUShort()` entry (0 on failure) per non-empty line, in order. */
  function Entries16(lines: seq<string>, part: Part): (r: seq<u16>)
    ensures |r| == |NonEmpty(lines)|
  {
    var ne := NonEmpty(lines);
    seq(|ne|, k requires 0 <= k < |ne| => UShortOr(PartOf(ne[k], part), 0))
  }

  /** One `toUInt()` entry (0 on failure) per non-empty line, in order. */
  function Entries32(lines: seq<string>): (r: seq<u32>)
    ensures |r| == |NonEmpty(lines)|
  {
    var ne := NonEmpty(lines);
    seq(|ne|, k requires 0 <= k < |ne| => match ToUInt(ne[k]) case Some(v) => v case None => 0)
  }

  /** Every non-empty line has a `/`, so that `ids[1]` exists. */
  predicate SlashOnEveryLine(lines: seq<string>) {
    forall k :: 0 <= k < |lines| && lines[k] != [] ==> '/' in lines[k]
  }

  lemma EntriesStep16(lines: seq<string>, i: nat, part: Part)
    requires i < |lines|
    ensures Entries16(lines[..i + 1], part)
         == Entries16(lines[..i], part) + (if lines[i] == [] then [] else [UShortOr(PartOf(lines[i], part), 0)])
  {
    assert lines[..i + 1][..i] == lines[..i];
  }

  lemma EntriesStep32(lines: seq<string>, i: nat)
    requires i < |lines|
    ensures Entries32(lines[..i + 1])
         == Entries32(lines[..i]) + (if lines[i] == [] then [] else [match ToUInt(lines[i]) case Some(v) => v case None => 0])
  {
    assert lines[..i + 1][..i] == lines[..i];
  }

  /** `for (input : inputs) if (!input.isEmpty()) filter.emplace_back(input.toUShort());` */
  method Collect16(acc: seq<u16>, lines: seq<string>) returns (vals: seq<u16>)
    ensures vals == acc + Entries16(lines, Whole)
  {
    vals := acc;
    var i := 0;
    while i < |lines|
      invariant i <= |lines|
      invariant vals == acc + Entries16(lines[..i], Whole)
    {
      EntriesStep16(lines, i, Whole);
      if lines[i] != [] {
        vals := vals + [UShortOr(lines[i], 0)];
      }
      i := i + 1;
    }
    assert lines[..i] == lines;
  }

  /** The same loop with `toUInt()`, for display TIDs. */
  method Collect32(lines: seq<string>) returns (vals: seq<u32>)
    ensures vals == Entries32(lines)
  {
    vals := [];
    var i := 0;
    while i < |lines|
      invariant i <= |lines|
      invariant vals == Entries32(lines[..i])
    {
      EntriesStep32(lines, i);
      if lines[i] != [] {
        var v := match ToUInt(lines[i]) case Some(v) => v case None => 0;
        vals := vals + [v];
      }
      i := i + 1;
    }
    assert lines[..i] == lines;
  }

  /** The TID/SID loop: each non-empty line is split on `/` into a TID and a SID entry. */
  method CollectPairs(lines: seq<string>) returns (tids: seq<u16>, sids: seq<u16>)
    requires SlashOnEveryLine(lines)
    ensures tids == Entries16(lines, BeforeSlash)
    ensures sids == Entries16(lines, AfterSlash)
  {
    tids, sids := [], [];
    var i := 0;
    while i < |lines|
      invariant i <= |lines|
      invariant tids == Entries16(lines[..i], BeforeSlash)
      invariant sids == Entries16(lines[..i], AfterSlash)
    {
      EntriesStep16(lines, i, BeforeSlash);
      EntriesStep16(lines, i, AfterSlash);
      if lines[i] != [] {
        var ids := Split(lines[i], '/');
        tids := tids + [UShortOr(ids[0], 0)];
        sids := sids + [UShortOr(ids[1], 0)];
      }
      i := i + 1;
    }
    assert lines[..i] == lines;
  }

  // ---------------------------------------------------------------------------
  // The widget
  // ---------------------------------------------------------------------------

  class IDsFilter {
    var mode: Mode
    var idsText: string
    var tsvText: string

    constructor (mode0: Mode, ids0: string, tsv0: string)
      ensures mode == mode0 && idsText == ids0 && tsvText == tsv0
    {
      mode, idsText, tsvText := mode0, ids0, tsv0;
    }

    /** `textEditIDsTextChanged`: every line of the ID box rewritten in place for the checked mode. */
    method TextEditIDsTextChanged()
      modifies this
      ensures mode == old(mode) && tsvText == old(tsvText)
      ensures idsText == NormalizedIds(mode, old(idsText))
    {
      var inputs := Split(idsText, '\n');
      ghost var lines := inputs;
      var i := 0;
      while i < |inputs|
        invariant i <= |inputs| == |lines|
        invariant unchanged(this)
        invariant forall j :: 0 <= j < i ==> inputs[j] == IdsLine(mode, lines[j])
        invariant forall j :: i <= j < |inputs| ==> inputs[j] == lines[j]
      {
        var line := NormalizeIdsLine(mode, inputs[i]);
        inputs := inputs[i := line];
        i := i + 1;
      }
      assert inputs == IdsLines(mode, lines);
      idsText := Join(inputs, '\n');
    }

    /** `textEditTSVTextChanged`: every line of the TSV box rewritten in place. */
    method TextEditTSVTextChanged()
      modifies this
      ensures mode == old(mode) && idsText == old(idsText)
      ensures tsvText == NormalizedTsv(old(tsvText))
    {
      var inputs := Split(tsvText, '\n');
      ghost var lines := inputs;
      var i := 0;
      while i < |inputs|
        invariant i <= |inputs| == |lines|
        invariant unchanged(this)
        invariant forall j :: 0 <= j < i ==> inputs[j] == TsvLine(lines[j])
        invariant forall j :: i <= j < |inputs| ==> inputs[j] == lines[j]
      {
        inputs := inputs[i := TsvLine(inputs[i])];
        i := i + 1;
      }
      assert inputs == TsvLines(lines);
      tsvText := Join(inputs, '\n');
    }

    /**
     * `getFilter`: one entry per non-empty ID line in the list of the checked
     * mode (one in each of TID and SID for TID/SID), then one SID entry per
     * non-empty TSV line; the TSV list stays empty.
     */
    method GetFilter() returns (f: IDFilter)
      requires mode == TIDSID ==> SlashOnEveryLine(Split(idsText, '\n'))
      ensures f.tsvFilter == []
      ensures f.tidFilter == match mode
                             case TID => Entries16(Split(idsText, '\n'), Whole)
                             case TIDSID => Entries16(Split(idsText, '\n'), BeforeSlash)
                             case _ => []
      ensures f.sidFilter == (match mode
                              case SID => Entries16(Split(idsText, '\n'), Whole)
                              case TIDSID => Entries16(Split(idsText, '\n'), AfterSlash)
                              case _ => [])
                             + Entries16(Split(tsvText, '\n'), Whole)
      ensures f.displayFilter == if mode == DisplayTID then Entries32(Split(idsText, '\n')) else []
    {
      var tidFilter: seq<u16> := [];
      var sidFilter: seq<u16> := [];
      var displayFilter: seq<u32> := [];
      var inputs := Split(idsText, '\n');
      match mode {
        case TID => tidFilter := Collect16([], inputs);
        case SID => sidFilter := Collect16([], inputs);
        case TIDSID => tidFilter, sidFilter := CollectPairs(inputs);
        case DisplayTID => displayFilter := Collect32(inputs);
      }
      inputs := Split(tsvText, '\n');
      sidFilter := Collect16(sidFilter, inputs);
      f := IDFilter(tidFilter, sidFilter, [], displayFilter);
    }
  }
}
