/** Capabilities of an ingest endpoint: their order and their text form
    (crates/core/src/endpoint.rs, `VariantType` and `parse_capabilities`). */
module Capabilities {
  import opened Wrappers

  const U16_MAX := 0xffff
  const U64_MAX := 0xffff_ffff_ffff_ffff

  datatype VariantType =
    | SourceVariant
    | Variant(height: nat, bitrate: nat)
    | DVR(height: nat)
  {
    predicate InRange() {
      match this
      case SourceVariant => true
      case Variant(h, b) => h <= U16_MAX && b <= U64_MAX
      case DVR(h) => h <= U16_MAX
    }

    function TypeOrder(): nat {
      match this
      case SourceVariant => 0
      case Variant(_, _) => 1
      case DVR(_) => 2
    }
  }

  // ----- The order --------------------------------------------------------

  datatype Ordering = Less | Equal | Greater

  function CompareNat(x: nat, y: nat): Ordering {
    if x < y then Less else if x == y then Equal else Greater
  }

  /** Copies first, then transcodes from large to small, then recordings from large to small. */
  function Compare(a: VariantType, b: VariantType): Ordering {
    if a.TypeOrder() != b.TypeOrder() then CompareNat(a.TypeOrder(), b.TypeOrder())
    else match (a, b)
      case (Variant(h1, b1), Variant(h2, b2)) =>
        (match CompareNat(h2, h1)
         case Equal => CompareNat(b2, b1)
         case ord => ord)
      case (DVR(h1), DVR(h2)) => CompareNat(h2, h1)
      case _ => Equal
  }

  /** The comparison is a lawful total order that agrees with equality. */
  lemma CompareIsTotalOrder(a: VariantType, b: VariantType, c: VariantType)
    ensures Compare(a, b) == Equal <==> a == b
    ensures Compare(a, b) == Less <==> Compare(b, a) == Greater
    ensures Compare(a, b) != Greater && Compare(b, c) != Greater ==> Compare(a, c) != Greater
  {
    match a
    case SourceVariant =>
    case Variant(_, _) =>
    case DVR(_) =>
  }

  /** Copies come first, recordings last, and taller and richer ones before the others. */
  lemma OrderIs(a: VariantType, b: VariantType)
    ensures Compare(a, b) == Less <==>
            match a
            case SourceVariant => !b.SourceVariant?
            case Variant(h, rate) =>
              b.DVR? || (b.Variant? && (b.height < h || (b.height == h && b.bitrate < rate)))
            case DVR(h) => b.DVR? && b.height < h
  {}

  ghost predicate Sorted(s: seq<VariantType>) {
    forall i, j | 0 <= i < j < |s| :: Compare(s[i], s[j]) != Greater
  }

  function Insert(v: VariantType, s: seq<VariantType>): seq<VariantType> {
    if s == [] || Compare(v, s[0]) != Greater then [v] + s
    else [s[0]] + Insert(v, s[1..])
  }

  /** The sequence a stable sort yields. */
  function Sort(s: seq<VariantType>): seq<VariantType> {
    if s == [] then [] else Insert(s[0], Sort(s[1..]))
  }

  lemma {:induction false} InsertSorts(v: VariantType, s: seq<VariantType>)
    requires Sorted(s)
    ensures Sorted(Insert(v, s)) && multiset(Insert(v, s)) == multiset(s) + multiset{v}
    decreases |s|
  {
    hide Compare;
    CompareIsTotalOrder(v, v, v);
    if s == [] || Compare(v, s[0]) != Greater {
      forall j | 0 <= j < |s| ensures Compare(v, s[j]) != Greater {
        CompareIsTotalOrder(s[0], s[0], s[0]);
        CompareIsTotalOrder(v, s[0], s[j]);
      }
    } else {
      assert s == [s[0]] + s[1..];
      InsertSorts(v, s[1..]);
      InsertBehind(s[0], v, s[1..], Insert(v, s[1..]));
    }
  }

  lemma InsertBehind(first: VariantType, v: VariantType, s: seq<VariantType>, rest: seq<VariantType>)
    requires multiset(rest) == multiset(s) + multiset{v} && Sorted(rest)
    requires Compare(v, first) == Greater && forall j | 0 <= j < |s| :: Compare(first, s[j]) != Greater
    ensures Sorted([first] + rest)
  {
    hide Compare;
    CompareIsTotalOrder(first, v, v);
    forall j | 0 <= j < |rest| ensures Compare(first, rest[j]) != Greater {
      assert rest[j] in multiset(rest);
      assert rest[j] in s || rest[j] == v;
    }
  }

  /** Sorting yields the sorted permutation of its input. */
  lemma {:induction false} SortSorts(s: seq<VariantType>)
    ensures Sorted(Sort(s)) && multiset(Sort(s)) == multiset(s)
    decreases |s|
  {
    if s != [] {
      assert s == [s[0]] + s[1..];
      SortSorts(s[1..]);
      InsertSorts(s[0], Sort(s[1..]));
    }
  }

  // ----- Text: numbers ------------------------------------------------------

  predicate IsDigit(c: char) { '0' <= c <= '9' }

  function DigitChar(d: nat): char
    requires d < 10
  {
    '0' + d as char
  }

  /** Decimal digits without leading zeros. */
  function PrintNat(n: nat): (s: string)
    ensures |s| > 0 && forall i | 0 <= i < |s| :: IsDigit(s[i])
  {
    if n < 10 then [DigitChar(n)] else PrintNat(n / 10) + [DigitChar(n % 10)]
  }

  function DigitsValue(s: string): nat
    requires forall i | 0 <= i < |s| :: IsDigit(s[i])
  {
    if s == [] then 0
    else
      assert IsDigit(s[|s| - 1]);
      10 * DigitsValue(s[..|s| - 1]) + (s[|s| - 1] - '0') as nat
  }

  predicate AllDigits(s: string) {
    forall i | 0 <= i < |s| :: IsDigit(s[i])
  }

  /** `str::parse` for an unsigned type: an optional plus sign, then digits within range. */
  function ParseNat(s: string, max: nat): Option<nat> {
    var digits := if s != [] && s[0] == '+' then s[1..] else s;
    if digits == [] || !AllDigits(digits) || DigitsValue(digits) > max then None
    else Some(DigitsValue(digits))
  }

  lemma {:induction false} PrintParses(n: nat, max: nat)
    requires n <= max
    ensures DigitsValue(PrintNat(n)) == n && ParseNat(PrintNat(n), max) == Some(n)
  {
    DigitsOfPrint(n);
    assert IsDigit(PrintNat(n)[0]);
  }

  lemma {:induction false} DigitsOfPrint(n: nat)
    ensures DigitsValue(PrintNat(n)) == n
  {
    if n < 10 {
      assert [DigitChar(n)][..0] == [];
    } else {
      DigitsOfPrint(n / 10);
      var s := PrintNat(n / 10) + [DigitChar(n % 10)];
      assert s[..|s| - 1] == PrintNat(n / 10);
    }
  }

  // ----- Text: splitting ------------------------------------------------------

  function Split(s: string, sep: char): (parts: seq<string>)
    ensures |parts| > 0
    decreases |s|
  {
    if s == [] then [[]]
    else
      var rest := Split(s[1..], sep);
      if s[0] == sep then [[]] + rest
      else [[s[0]] + rest[0]] + rest[1..]
  }

  lemma {:induction false} SplitNone(s: string, sep: char)
    requires sep !in s
    ensures Split(s, sep) == [s]
    decreases |s|
  {
    if s != [] {
      SplitNone(s[1..], sep);
      assert s == [s[0]] + s[1..];
    }
  }

  /** A separator cuts the text independently on both sides. */
  lemma {:induction false} SplitConcat(a: string, b: string, sep: char)
    ensures Split(a + [sep] + b, sep) == Split(a, sep) + Split(b, sep)
    decreases |a|
  {
    var whole := a + [sep] + b;
    if a == [] {
      assert whole[1..] == b;
    } else {
      assert whole[1..] == a[1..] + [sep] + b;
      SplitConcat(a[1..], b, sep);
    }
  }

  // ----- Text: capabilities ---------------------------------------------------

  function Print(v: VariantType): string {
    match v
    case SourceVariant => "variant:source"
    case Variant(h, b) => "variant:" + PrintNat(h) + ":" + PrintNat(b)
    case DVR(h) => "dvr:" + PrintNat(h)
  }

  function Parse(s: string): Option<VariantType> {
    ParseParts(Split(s, ':'))
  }

  function ParseParts(cs: seq<string>): Option<VariantType>
    requires |cs| > 0
  {
    if cs[0] == "variant" && |cs| > 1 && cs[1] == "source" then Some(SourceVariant)
    else if cs[0] == "variant" && |cs| == 3 then
      match (ParseNat(cs[1], U16_MAX), ParseNat(cs[2], U64_MAX))
      case (Some(h), Some(br)) => Some(Variant(h, br))
      case _ => None
    else if cs[0] == "dvr" && |cs| == 2 then
      match ParseNat(cs[1], U16_MAX)
      case Some(h) => Some(DVR(h))
      case None => None
    else None
  }

  function LowerChar(c: char): char {
    if 'A' <= c <= 'Z' then c + 32 as char else c
  }

  function Lower(s: string): (r: string)
    ensures |r| == |s|
  {
    seq(|s|, i requires 0 <= i < |s| => LowerChar(s[i]))
  }

  function ParseEach(parts: seq<string>): seq<VariantType> {
    if parts == [] then []
    else (match Parse(parts[0]) case Some(v) => [v] case None => []) + ParseEach(parts[1..])
  }

  function ParseCapabilities(cap: Option<string>): seq<VariantType> {
    match cap
    case Some(text) => ParseEach(Split(Lower(text), ','))
    case None => []
  }

  /** The capability column of an endpoint for a list of capabilities. */
  function PrintCapabilities(caps: seq<VariantType>): string {
    if caps == [] then ""
    else if |caps| == 1 then Print(caps[0])
    else Print(caps[0]) + "," + PrintCapabilities(caps[1..])
  }

  lemma NotIn(s: string, c: char)
    requires AllDigits(s) && !IsDigit(c)
    ensures c !in s
  {}

  lemma SplitTwo(a: string, b: string)
    requires ':' !in a && ':' !in b
    ensures Split(a + ":" + b, ':') == [a, b]
  {
    SplitConcat(a, b, ':');
    SplitNone(a, ':');
    SplitNone(b, ':');
  }

  lemma SplitThree(a: string, b: string, c: string)
    requires ':' !in a && ':' !in b && ':' !in c
    ensures Split(a + ":" + b + ":" + c, ':') == [a, b, c]
  {
    SplitConcat(a + ":" + b, c, ':');
    SplitTwo(a, b);
    SplitNone(c, ':');
  }

  lemma NotSource(s: string)
    requires AllDigits(s) && s != []
    ensures s != "source"
  {
    assert IsDigit(s[0]) && !IsDigit("source"[0]);
  }

  /** Every printed capability parses back to itself. */
  lemma PrintParse(v: VariantType)
    requires v.InRange()
    ensures Parse(Print(v)) == Some(v)
  {
    hide Split, ParseNat, PrintNat;
    match v
    case SourceVariant =>
      SplitTwo("variant", "source");
      assert "variant:source" == "variant" + ":" + "source";
    case Variant(h, b) =>
      PrintVariant(h, b);
      PrintParses(h, U16_MAX);
      PrintParses(b, U64_MAX);
      NotSource(PrintNat(h));
    case DVR(h) =>
      PrintDvr(h);
      PrintParses(h, U16_MAX);
  }

  lemma PrintVariant(h: nat, b: nat)
    ensures Split(Print(Variant(h, b)), ':') == ["variant", PrintNat(h), PrintNat(b)]
  {
    hide Split, PrintNat;
    NotIn(PrintNat(h), ':');
    NotIn(PrintNat(b), ':');
    SplitThree("variant", PrintNat(h), PrintNat(b));
    assert "variant:" == "variant" + ":";
  }

  lemma PrintDvr(h: nat)
    ensures Split(Print(DVR(h)), ':') == ["dvr", PrintNat(h)]
  {
    hide Split, PrintNat;
    NotIn(PrintNat(h), ':');
    SplitTwo("dvr", PrintNat(h));
    assert "dvr:" == "dvr" + ":";
  }

  /** No upper-case letter and no comma. */
  ghost predicate Plain(s: string) {
    forall i | 0 <= i < |s| :: !('A' <= s[i] <= 'Z') && s[i] != ','
  }

  lemma PrintIsPlain(v: VariantType)
    ensures Plain(Print(v))
  {
    forall n: nat ensures Plain(PrintNat(n)) {
      assert forall i | 0 <= i < |PrintNat(n)| :: IsDigit(PrintNat(n)[i]);
    }
  }

  lemma {:induction false} ParseEachConcat(a: seq<string>, b: seq<string>)
    ensures ParseEach(a + b) == ParseEach(a) + ParseEach(b)
    decreases |a|
  {
    if a == [] {
      assert a + b == b;
    } else {
      assert (a + b)[1..] == a[1..] + b;
      ParseEachConcat(a[1..], b);
    }
  }

  lemma LowerConcat(a: string, b: string)
    ensures Lower(a + b) == Lower(a) + Lower(b)
  {}

  /** The two sides of a comma never influence each other: a malformed entry is skipped
      without disturbing its neighbours. */
  lemma CommaIsIndependent(a: string, b: string)
    ensures ParseCapabilities(Some(a + "," + b)) == ParseCapabilities(Some(a)) + ParseCapabilities(Some(b))
  {
    hide Parse, Lower, Split;
    LowerConcat(a + ",", b);
    LowerConcat(a, ",");
    LowerComma();
    SplitConcat(Lower(a), Lower(b), ',');
    ParseEachConcat(Split(Lower(a), ','), Split(Lower(b), ','));
  }

  lemma LowerComma()
    ensures Lower(",") == [',']
  {}

  lemma ParseOne(v: VariantType)
    requires v.InRange()
    ensures ParseCapabilities(Some(Print(v))) == [v]
  {
    hide Parse, Print;
    PrintIsPlain(v);
    assert Lower(Print(v)) == Print(v);
    SplitNone(Print(v), ',');
    PrintParse(v);
    assert ParseEach([Print(v)][1..]) == [];
  }

  /** Printing any list of capabilities and parsing it returns the same list in order. */
  lemma {:induction false} CapabilitiesRoundTrip(caps: seq<VariantType>)
    requires forall i | 0 <= i < |caps| :: caps[i].InRange()
    ensures ParseCapabilities(Some(PrintCapabilities(caps))) == caps
    decreases |caps|
  {
    hide Parse, Print, ParseCapabilities, Split, Lower;
    if caps == [] {
      ParseEmpty();
    } else if |caps| == 1 {
      ParseOne(caps[0]);
      assert caps == [caps[0]];
    } else {
      ParseOne(caps[0]);
      CapabilitiesRoundTrip(caps[1..]);
      CommaIsIndependent(Print(caps[0]), PrintCapabilities(caps[1..]));
    }
  }

  lemma ParseEmpty()
    ensures ParseCapabilities(Some("")) == []
  {
    assert Lower("") == [];
    assert Split([], ',') == [[]];
  }

  // ----- Exactly what parses ------------------------------------------------------

  /** A number as it may be written: digits, perhaps behind a plus sign, within range. */
  ghost predicate Numeral(s: string, n: nat, max: nat) {
    exists digits: string | digits != [] && AllDigits(digits) ::
      (s == digits || s == "+" + digits) && DigitsValue(digits) == n <= max
  }

  lemma ParseNatIff(s: string, max: nat, n: nat)
    ensures ParseNat(s, max) == Some(n) <==> Numeral(s, n, max)
  {
    if ParseNat(s, max) == Some(n) {
      var digits := if s != [] && s[0] == '+' then s[1..] else s;
      assert s[0] == '+' ==> s == "+" + s[1..];
      assert digits != [] && AllDigits(digits);
    }
    if Numeral(s, n, max) {
      var digits: string :| digits != [] && AllDigits(digits) && (s == digits || s == "+" + digits)
                               && DigitsValue(digits) == n <= max;
      assert IsDigit(digits[0]) && !IsDigit('+');
      assert s == "+" + digits ==> s[1..] == digits;
    }
  }

  function Join(parts: seq<string>, sep: char): string
    requires |parts| > 0
  {
    if |parts| == 1 then parts[0] else parts[0] + [sep] + Join(parts[1..], sep)
  }

  /** Splitting loses nothing. */
  lemma {:induction false} SplitJoin(s: string, sep: char)
    ensures Join(Split(s, sep), sep) == s
    decreases |s|
  {
    if s != [] {
      var rest := Split(s[1..], sep);
      SplitJoin(s[1..], sep);
      if s[0] == sep {
        assert ([[]] + rest)[1..] == rest;
      } else {
        assert ([[s[0]] + rest[0]] + rest[1..])[1..] == rest[1..];
      }
    }
  }

  /** The spellings of a capability; anything may follow a source. */
  ghost predicate Spelled(s: string, v: VariantType) {
    match v
    case SourceVariant => s == "variant:source" || exists rest: string :: s == "variant:source:" + rest
    case Variant(h, b) =>
      exists x: string, y: string :: s == "variant:" + x + ":" + y && Numeral(x, h, U16_MAX) && Numeral(y, b, U64_MAX)
    case DVR(h) => exists x: string :: s == "dvr:" + x && Numeral(x, h, U16_MAX)
  }

  lemma NumeralHasNoColon(s: string, n: nat, max: nat)
    requires Numeral(s, n, max)
    ensures ':' !in s && s != "source"
  {
    var digits: string :| digits != [] && AllDigits(digits) && (s == digits || s == "+" + digits);
    NotIn(digits, ':');
    assert IsDigit(digits[0]) && !IsDigit("source"[0]) && '+' != "source"[0];
    assert s[0] == digits[0] || s[0] == '+';
  }

  /** A text is a capability exactly if it spells it. */
  lemma ParseIff(s: string, v: VariantType)
    ensures Parse(s) == Some(v) <==> Spelled(s, v)
  {
    hide ParseNat, Numeral, Split;
    if Parse(s) == Some(v) {
      SpelledBy(s, v);
    }
    if Spelled(s, v) {
      ParseSpelled(s, v);
    }
  }

  lemma SpelledBy(s: string, v: VariantType)
    requires Parse(s) == Some(v)
    ensures Spelled(s, v)
  {
    hide ParseNat, Numeral, Split;
    var cs := Split(s, ':');
    SplitJoin(s, ':');
    match v
    case SourceVariant =>
      JoinTwo(cs);
      if |cs| > 2 {
        assert s == "variant:source:" + Join(cs[2..], ':');
      }
    case Variant(h, b) =>
      ParseNatIff(cs[1], U16_MAX, h);
      ParseNatIff(cs[2], U64_MAX, b);
      JoinTwo(cs);
      assert s == "variant:" + cs[1] + ":" + cs[2];
    case DVR(h) =>
      ParseNatIff(cs[1], U16_MAX, h);
      JoinTwo(cs);
      assert s == "dvr:" + cs[1];
  }

  lemma JoinTwo(cs: seq<string>)
    requires |cs| >= 2
    ensures |cs| == 2 ==> Join(cs, ':') == cs[0] + ":" + cs[1]
    ensures |cs| > 2 ==> Join(cs, ':') == cs[0] + ":" + cs[1] + ":" + Join(cs[2..], ':')
    ensures |cs| == 3 ==> Join(cs, ':') == cs[0] + ":" + cs[1] + ":" + cs[2]
  {
    hide Join;
    assert cs[1..][1..] == cs[2..];
    JoinOne(cs);
    JoinOne(cs[1..]);
    if |cs| == 3 { JoinOne(cs[2..]); }
  }

  lemma JoinOne(cs: seq<string>)
    requires |cs| > 0
    ensures Join(cs, ':') == if |cs| == 1 then cs[0] else cs[0] + ":" + Join(cs[1..], ':')
  {}

  lemma ParseSpelled(s: string, v: VariantType)
    requires Spelled(s, v)
    ensures Parse(s) == Some(v)
  {
    hide ParseNat, Numeral, Split;
    match v
    case SourceVariant =>
      SplitTwo("variant", "source");
      assert "variant:source" == "variant" + ":" + "source";
      if s != "variant:source" {
        var rest: string :| s == "variant:source:" + rest;
        SplitConcat("variant:source", rest, ':');
        assert s == "variant:source" + [':'] + rest;
      }
    case Variant(h, b) =>
      var x: string, y: string :| s == "variant:" + x + ":" + y && Numeral(x, h, U16_MAX) && Numeral(y, b, U64_MAX);
      NumeralHasNoColon(x, h, U16_MAX);
      NumeralHasNoColon(y, b, U64_MAX);
      SplitThree("variant", x, y);
      assert "variant:" == "variant" + ":";
      ParseNatIff(x, U16_MAX, h);
      ParseNatIff(y, U64_MAX, b);
    case DVR(h) =>
      var x: string :| s == "dvr:" + x && Numeral(x, h, U16_MAX);
      NumeralHasNoColon(x, h, U16_MAX);
      SplitTwo("dvr", x);
      assert "dvr:" == "dvr" + ":";
      ParseNatIff(x, U16_MAX, h);
  }

  function UpperChar(c: char): char { if 'a' <= c <= 'z' then c - 32 as char else c }

  function Upper(s: string): (r: string)
    ensures |r| == |s|
  {
    seq(|s|, i requires 0 <= i < |s| => UpperChar(s[i]))
  }

  /** Case does not matter. */
  lemma CaseIsIgnored(text: string)
    ensures ParseCapabilities(Some(Upper(text))) == ParseCapabilities(Some(text))
            == ParseCapabilities(Some(Lower(text)))
  {
    assert Lower(Upper(text)) == Lower(text) == Lower(Lower(text));
  }
}
