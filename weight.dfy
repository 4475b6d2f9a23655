/** The egg-weight conversion of fms_result:
    float(str(w).replace('g', '').replace(',', '').strip()), falling back to 0
    when float() rejects the text. Numbers are exact reals. */
module WeightParser {
  import opened Wrappers
  import opened Text
  import opened Numerals
  import opened Values

  /** Column holding the egg weight. */
  const WeightKey: string := "종란무게"

  /** The text float() receives: every 'g' and ',' deleted, then stripped. */
  function Clean(raw: string): string {
    Strip(Remove(Remove(raw, 'g'), ','))
  }

  /** The cleaned text holds no 'g', no ',' and no whitespace at its ends. */
  lemma {:induction false} CleanSpec(raw: string)
    ensures 'g' !in Clean(raw) && ',' !in Clean(raw) && Trimmed(Clean(raw))
  {
    var y := Remove(raw, 'g');
    var x := Remove(y, ',');
    RemoveSpec(raw, 'g');
    RemoveSpec(y, ',');
    assert multiset(x)['g'] == 0 && multiset(x)[','] == 0;
    StripAddsNothing(x, 'g');
    StripAddsNothing(x, ',');
    StripSpec(x);
  }

  /** Position of the first '.', or |s| when there is none. */
  function DotIndex(s: string): (i: nat)
    ensures i <= |s|
  {
    if s == [] || s[0] == '.' then 0 else 1 + DotIndex(s[1..])
  }

  lemma {:induction false} DotIndexSpec(s: string)
    ensures DotIndex(s) < |s| ==> s[DotIndex(s)] == '.'
    ensures forall j :: 0 <= j < DotIndex(s) ==> s[j] != '.'
  {
    if s != [] && s[0] != '.' {
      DotIndexSpec(s[1..]);
    }
  }

  /** An unsigned decimal: digits, optionally a point and more digits, with
      at least one digit in all ("5", "5.", ".5", "1234.5"). */
  function ParseUnsigned(b: string): Option<real> {
    var i := DotIndex(b);
    var whole := b[..i];
    var frac := if i < |b| then b[i + 1..] else "";
    if AllDigits(whole) && AllDigits(frac) && |whole| + |frac| > 0 then
      Some(DecimalOf(whole, frac))
    else
      None
  }

  /** float() on the plain decimal forms: an optional sign before an unsigned decimal. */
  function ParseDecimal(t: string): Option<real> {
    if |t| > 0 && (t[0] == '+' || t[0] == '-') then
      match ParseUnsigned(t[1..])
      case Some(x) => Some(if t[0] == '-' then -x else x)
      case None => None
    else
      ParseUnsigned(t)
  }

  /** The grammar of unsigned decimals, stated without searching for the point. */
  predicate IsUnsignedDecimal(b: string) {
    (|b| > 0 && AllDigits(b)) ||
    (exists i :: 0 <= i < |b| && b[i] == '.' && AllDigits(b[..i]) && AllDigits(b[i + 1..]) && |b| > 1)
  }

  predicate IsDecimal(t: string) {
    IsUnsignedDecimal(t) || (|t| > 0 && (t[0] == '+' || t[0] == '-') && IsUnsignedDecimal(t[1..]))
  }

  /** The parsed weight of a raw value; 0 whenever float() would raise. */
  function ParseWeight(v: Value): real {
    match ParseDecimal(Clean(Str(v)))
    case Some(x) => x
    case None => 0.0
  }

  /** row.get(weight, 0), parsed. */
  function RowWeight(r: Row): real {
    ParseWeight(Get(r, WeightKey, Int(0)))
  }

  lemma {:induction false} UnsignedSound(b: string)
    requires ParseUnsigned(b).Some?
    ensures IsUnsignedDecimal(b)
  {
    DotIndexSpec(b);
    var i := DotIndex(b);
    if i == |b| {
      assert b[..i] == b;
    } else {
      assert b[i] == '.' && AllDigits(b[..i]) && AllDigits(b[i + 1..]);
    }
  }

  lemma {:induction false} UnsignedComplete(b: string)
    requires IsUnsignedDecimal(b)
    ensures ParseUnsigned(b).Some?
  {
    DotIndexSpec(b);
    var i := DotIndex(b);
    if |b| > 0 && AllDigits(b) {
      assert i == |b|;
      assert b[..i] == b;
    } else {
      var k :| 0 <= k < |b| && b[k] == '.' && AllDigits(b[..k]) && AllDigits(b[k + 1..]) && |b| > 1;
      assert forall j :: 0 <= j < k ==> b[j] == b[..k][j];
      assert i == k;
    }
  }

  lemma {:induction false} UnsignedDefinedIff(b: string)
    ensures ParseUnsigned(b).Some? <==> IsUnsignedDecimal(b)
  {
    if ParseUnsigned(b).Some? {
      UnsignedSound(b);
    }
    if IsUnsignedDecimal(b) {
      UnsignedComplete(b);
    }
  }

  /** float() succeeds exactly on the text the decimal grammar accepts. */
  lemma {:induction false} ParseDefinedIff(t: string)
    ensures ParseDecimal(t).Some? <==> IsDecimal(t)
  {
    if |t| > 0 && (t[0] == '+' || t[0] == '-') {
      UnsignedDefinedIff(t[1..]);
      assert !IsUnsignedDecimal(t) by {
        assert !IsDigit(t[0]);
        forall i | 0 <= i < |t| && t[i] == '.'
          ensures !AllDigits(t[..i])
        {
          assert t[..i][0] == t[0];
        }
      }
    } else {
      UnsignedDefinedIff(t);
    }
  }

  /** The value of a point-separated decimal: whole part plus fraction. */
  lemma {:induction false} DecimalValue(a: string, b: string)
    requires AllDigits(a) && AllDigits(b) && |a| + |b| > 0
    ensures ParseDecimal(a + "." + b) == Some(DecimalOf(a, b))
  {
    var s := a + "." + b;
    assert s[|a|] == '.';
    assert forall j :: 0 <= j < |a| ==> s[j] == a[j];
    DotIndexSpec(s);
    var i := DotIndex(s);
    assert i == |a|;
    assert s[..i] == a;
    assert s[i + 1..] == b;
    assert !(s[0] == '+' || s[0] == '-') by {
      if |a| > 0 {
        assert s[0] == a[0];
      }
    }
    assert ParseDecimal(s) == ParseUnsigned(s);
  }

  /** A digit string parses as the number it denotes. */
  lemma {:induction false} ParseDigits(d: string)
    requires |d| > 0 && AllDigits(d)
    ensures ParseUnsigned(d) == Some(DigitsValue(d) as real)
  {
    assert DotIndex(d) == |d| by {
      DotIndexSpec(d);
      assert forall j :: 0 <= j < |d| ==> d[j] != '.';
    }
    assert d[..|d|] == d;
    assert DecimalOf(d, "") == DigitsValue(d) as real;
  }

  /** A digit string, with or without a leading minus, parses as the signed
      number it denotes. */
  lemma {:induction false} ParseSignedDigits(d: string)
    requires |d| > 0 && AllDigits(d)
    ensures ParseDecimal(d) == Some(DigitsValue(d) as real)
    ensures ParseDecimal("-" + d) == Some(-(DigitsValue(d) as real))
  {
    ParseDigits(d);
    assert IsDigit(d[0]);
    assert ("-" + d)[1..] == d;
  }

  /** Reading back the numeral of a natural number, with or without a minus. */
  lemma {:induction false} ParseNatText(m: nat)
    ensures ParseDecimal(NatToText(m)) == Some(m as real)
    ensures ParseDecimal("-" + NatToText(m)) == Some(-(m as real))
  {
    NatToTextValue(m);
    ParseSignedDigits(NatToText(m));
  }

  /** Reading back str(n) for an integer n gives n. */
  lemma {:induction false} ParseIntText(n: int)
    ensures ParseDecimal(IntToText(n)) == Some(n as real)
  {
    if n < 0 {
      ParseNatText(-n);
    } else {
      ParseNatText(n);
    }
  }

  /** Text with nothing to delete and nothing to trim is its own cleaning. */
  lemma {:induction false} CleanPlain(s: string)
    requires 'g' !in s && ',' !in s && Trimmed(s)
    ensures Clean(s) == s
  {
    RemoveAbsent(s, 'g');
    RemoveAbsent(s, ',');
    StripTrimmed(s);
  }

  /** What str() writes for an integer survives cleaning unchanged. */
  lemma {:induction false} CleanIntText(n: int)
    ensures Clean(IntToText(n)) == IntToText(n)
  {
    var s := IntToText(n);
    var d := NatToText(if n < 0 then -n else n);
    assert forall j :: 0 <= j < |d| ==> IsDigit(d[j]);
    assert forall j :: 0 <= j < |s| ==> s[j] == '-' || IsDigit(s[j]) by {
      if n < 0 {
        assert forall j :: 1 <= j < |s| ==> s[j] == d[j - 1];
      }
    }
    assert IsDigit(s[|s| - 1]);
    CleanPlain(s);
  }

  /** An integer column value parses to itself. */
  lemma {:induction false} ParseWeightInt(n: int)
    ensures ParseWeight(Int(n)) == n as real
  {
    CleanIntText(n);
    ParseIntText(n);
  }

  /** A row without the weight column weighs 0. */
  lemma {:induction false} MissingWeightIsZero(r: Row)
    requires WeightKey !in r.fields
    ensures RowWeight(r) == 0.0
  {
    ParseWeightInt(0);
  }

  /** A nonzero weight always comes from text float() accepts; anything
      float() rejects reads as 0. */
  lemma {:induction false} NonzeroWeightWasDecimal(v: Value)
    ensures ParseWeight(v) != 0.0 ==> IsDecimal(Clean(Str(v)))
  {
    ParseDefinedIff(Clean(Str(v)));
  }

  /** A thousands separator is deleted before parsing: a comma anywhere in the
      text changes nothing. */
  lemma {:induction false} CommaIgnored(a: string, b: string)
    ensures ParseWeight(Text(a + "," + b)) == ParseWeight(Text(a + b))
  {
    var ga, gb := Remove(a, 'g'), Remove(b, 'g');
    RemoveAppend(a + ",", b, 'g');
    RemoveAppend(a, ",", 'g');
    assert Remove(",", 'g') == ",";
    RemoveAppend(a, b, 'g');
    RemoveAppend(ga + ",", gb, ',');
    RemoveAppend(ga, ",", ',');
    assert Remove(",", ',') == "";
    RemoveAppend(ga, gb, ',');
    assert Remove(Remove(a + "," + b, 'g'), ',') == Remove(Remove(a + b, 'g'), ',');
  }

  /** A weight written with a thousands separator, a fraction and a unit,
      such as "1,234.5g", reads as the decimal its digits spell. */
  lemma {:induction false} ThousandsGrams(a: string, b: string, c: string)
    requires AllDigits(a) && AllDigits(b) && AllDigits(c) && |a| + |b| > 0
    ensures ParseWeight(Text(a + "," + b + "." + c + "g")) == DecimalOf(a + b, c)
  {
    var tail := b + "." + c + "g";
    var whole := a + b;
    DigitsJoin(a, b);
    assert a + "," + b + "." + c + "g" == a + "," + tail;
    assert a + tail == whole + "." + c + "g";
    CommaIgnored(a, tail);
    DecimalGrams(whole, c);
  }

  /** Cleaning is idempotent: the cleaned text has nothing left to delete or trim. */
  lemma {:induction false} CleanIdempotent(raw: string)
    ensures Clean(Clean(raw)) == Clean(raw)
  {
    CleanSpec(raw);
    CleanPlain(Clean(raw));
  }

  /** A gram suffix is ignored: "<n>g" weighs n. */
  lemma {:induction false} GramSuffix(n: nat)
    ensures ParseWeight(Text(NatToText(n) + "g")) == n as real
  {
    var d := NatToText(n);
    assert forall j :: 0 <= j < |d| ==> IsDigit(d[j]);
    RemoveAbsent(d, 'g');
    RemoveAppend(d, "g", 'g');
    assert Remove("g", 'g') == "";
    assert Remove(d + "g", 'g') == Remove(d, 'g');
    assert Clean(d + "g") == Clean(d);
    assert IntToText(n) == d;
    CleanIntText(n);
    ParseIntText(n);
  }

  /** A decimal with a gram suffix ("52.5g") weighs the decimal. */
  lemma {:induction false} DecimalGrams(a: string, b: string)
    requires AllDigits(a) && AllDigits(b) && |a| + |b| > 0
    ensures ParseWeight(Text(a + "." + b + "g")) == DecimalOf(a, b)
  {
    var d := a + "." + b;
    assert forall j :: 0 <= j < |d| ==> d[j] == '.' || IsDigit(d[j]) by {
      assert forall j :: 0 <= j < |a| ==> d[j] == a[j];
      assert forall j :: |a| < j < |d| ==> d[j] == b[j - |a| - 1];
    }
    assert 'g' !in d && ',' !in d && Trimmed(d);
    RemoveAppend(d, "g", 'g');
    RemoveAbsent(d, 'g');
    assert Remove("g", 'g') == "";
    assert d + "" == d;
    CleanPlain(d);
    DecimalValue(a, b);
  }

  /** Text that starts with anything but a digit, a sign or a point is
      rejected by float(). */
  lemma {:induction false} BadLeadRejected(t: string)
    requires |t| > 0 && !IsDigit(t[0]) && t[0] != '.' && t[0] != '+' && t[0] != '-'
    ensures ParseDecimal(t) == None
  {
    DotIndexSpec(t);
    var i := DotIndex(t);
    assert i > 0;
    assert t[..i][0] == t[0];
  }

  /** A word float() rejects weighs 0. */
  lemma {:induction false} WordWeighsZero()
    ensures ParseWeight(Text("abc")) == 0.0
  {
    assert "abc"[0] == 'a' && "abc"[2] == 'c';
    assert 'g' !in "abc" && ',' !in "abc";
    CleanPlain("abc");
    BadLeadRejected("abc");
  }

  /** NULL reads as the text "None", which float() rejects, so it weighs 0;
      so does the empty text. */
  lemma {:induction false} NullWeighsZero()
    ensures ParseWeight(Null) == 0.0
    ensures ParseWeight(Text("")) == 0.0
  {
    assert "None"[0] == 'N' && "None"[3] == 'e';
    assert 'g' !in "None" && ',' !in "None";
    CleanPlain("None");
    BadLeadRejected("None");
  }
}
