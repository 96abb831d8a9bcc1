/** Reading prices off the listing page and finding the first one at or
    under the alert ceiling (the scan loop of `check_twickets_url`). */
module Prices {
  import opened Text
  import opened Wrappers

  /** The pound sign every price text starts with. */
  const Pound: char := '\U{00A3}'

  /** Prices at or under this many pounds raise an alert. */
  const Ceiling: nat := 250

  predicate IsDigit(c: char)
  {
    '0' <= c <= '9'
  }

  predicate AllDigits(s: string)
  {
    forall i :: 0 <= i < |s| ==> IsDigit(s[i])
  }

  /** Value of a string of decimal digits, most significant digit first. */
  function DecimalValue(s: string): nat
    requires AllDigits(s)
  {
    if s == [] then 0
    else DecimalValue(s[..|s| - 1]) * 10 + (s[|s| - 1] as int - '0' as int)
  }

  /** `int(s)` restricted to plain decimal numerals: a non-empty run of digits
      parses, anything else is a parse failure. */
  function ParseDecimal(s: string): (r: Option<nat>)
    ensures r.Some? <==> s != [] && AllDigits(s)
  {
    if s != [] && AllDigits(s) then Some(DecimalValue(s)) else None
  }

  /** Decimal numeral of `n` without leading zeros. */
  function ShowNat(n: nat): (s: string)
    ensures s != [] && AllDigits(s)
  {
    var d := ['0' + (n % 10) as char];
    if n < 10 then d else ShowNat(n / 10) + d
  }

  /** Parsing reads back the number a numeral was made from. */
  lemma {:induction false} ParseShowNat(n: nat)
    ensures ParseDecimal(ShowNat(n)) == Some(n)
  {
    var s := ShowNat(n);
    assert s[|s| - 1] as int - '0' as int == n % 10;
    if n >= 10 {
      ParseShowNat(n / 10);
      assert s[..|s| - 1] == ShowNat(n / 10);
      assert DecimalValue(s) == DecimalValue(ShowNat(n / 10)) * 10 + n % 10;
    } else {
      assert s[..|s| - 1] == [];
      assert DecimalValue(s) == DecimalValue([]) * 10 + n % 10;
    }
  }

  /** `text.replace("£", "").replace(",", "")`. */
  function StripSymbols(text: string): (r: string)
  {
    ReplaceAll(ReplaceAll(text, Pound, []), ',', [])
  }

  /** Stripping deletes every pound sign and comma and keeps every other
      character, as often as it occurs. */
  lemma StripSymbolsDeletes(text: string)
    ensures Pound !in StripSymbols(text) && ',' !in StripSymbols(text)
    ensures forall c :: c != Pound && c != ',' ==>
              Occurrences(StripSymbols(text), c) == Occurrences(text, c)
  {
    ReplaceByNothingDeletes(text, Pound);
    var inner := ReplaceAll(text, Pound, []);
    ReplaceByNothingDeletes(inner, ',');
    assert Occurrences(StripSymbols(text), Pound) == Occurrences(inner, Pound) == 0;
  }

  /** What one price tag's text amounts to. */
  datatype PriceTag =
    | NotAPrice           // does not start with a pound sign: ignored
    | Unparsable          // starts with a pound sign but is no number
    | Amount(value: nat)  // a price in whole pounds

  function ReadPrice(text: string): (t: PriceTag)
    ensures t.NotAPrice? <==> text == [] || text[0] != Pound
  {
    if text == [] || text[0] != Pound then NotAPrice
    else match ParseDecimal(StripSymbols(text))
      case None => Unparsable
      case Some(n) => Amount(n)
  }

  /** A price that raises an alert. */
  predicate Qualifies(t: PriceTag)
  {
    t.Amount? && t.value <= Ceiling
  }

  /** A tag the scan passes over and continues after. */
  predicate Skipped(t: PriceTag)
  {
    t.NotAPrice? || (t.Amount? && t.value > Ceiling)
  }

  /** A pound sign followed by a numeral reads as that many pounds, and it
      qualifies exactly when it is at most the ceiling. */
  lemma ReadPoundNumeral(n: nat)
    ensures ReadPrice([Pound] + ShowNat(n)) == Amount(n)
    ensures Qualifies(ReadPrice([Pound] + ShowNat(n))) <==> n <= Ceiling
  {
    var s := ShowNat(n);
    assert Pound !in s && ',' !in s by {
      assert forall i :: 0 <= i < |s| ==> IsDigit(s[i]);
    }
    assert ([Pound] + s)[1..] == s;
    assert ReplaceAll([Pound] + s, Pound, []) == s;
    ParseShowNat(n);
  }

  /** The outcome of scanning the matched price texts. */
  datatype ScanResult =
    | Found(index: nat)          // the alert is for the text at this index
    | NoneFound                  // no text qualifies
    | ParseFailure(index: nat)   // int() raised on the text at this index

  /** Scanning from position `i`: texts are examined in document order; the
      first qualifying one ends the scan with an alert, the first unparsable
      one ends it with an error, and every other one is passed over. */
  function ScanFrom(prices: seq<string>, i: nat): (r: ScanResult)
    requires i <= |prices|
    ensures r.Found? || r.ParseFailure? ==> i <= r.index < |prices|
    decreases |prices| - i
  {
    if i == |prices| then NoneFound
    else
      var t := ReadPrice(prices[i]);
      if t.Unparsable? then ParseFailure(i)
      else if Qualifies(t) then Found(i)
      else ScanFrom(prices, i + 1)
  }

  /** What the scan finds: the alert is for a qualifying price, the error for
      an unparsable text, and every text before either, or every text at all
      when nothing is found, is one the scan passes over. */
  lemma {:induction false} ScanFromMeaning(prices: seq<string>, i: nat)
    requires i <= |prices|
    ensures var r := ScanFrom(prices, i);
            && (r.Found? ==> Qualifies(ReadPrice(prices[r.index])))
            && (r.ParseFailure? ==> ReadPrice(prices[r.index]).Unparsable?)
            && (r.Found? || r.ParseFailure? ==>
                  forall j :: i <= j < r.index ==> Skipped(ReadPrice(prices[j])))
            && (r.NoneFound? ==> forall j :: i <= j < |prices| ==> Skipped(ReadPrice(prices[j])))
    decreases |prices| - i
  {
    if i < |prices| {
      var t := ReadPrice(prices[i]);
      if t.Unparsable? {
        assert ScanFrom(prices, i) == ParseFailure(i);
      } else if Qualifies(t) {
        assert ScanFrom(prices, i) == Found(i);
      } else {
        assert Skipped(t);
        assert ScanFrom(prices, i) == ScanFrom(prices, i + 1);
        ScanFromMeaning(prices, i + 1);
      }
    }
  }

  /** The scan loop as `main.py` writes it, returning early on the first
      qualifying price and on the first text `int()` rejects. */
  method Scan(prices: seq<string>) returns (r: ScanResult)
    ensures r == ScanFrom(prices, 0)
  {
    var i := 0;
    while i < |prices|
      invariant i <= |prices|
      invariant ScanFrom(prices, i) == ScanFrom(prices, 0)
    {
      var text := prices[i];
      if |text| > 0 && text[0] == Pound {
        var parsed := ParseDecimal(StripSymbols(text));
        if parsed.None? {
          return ParseFailure(i);
        }
        if parsed.value <= Ceiling {
          return Found(i);
        }
      }
      i := i + 1;
    }
    return NoneFound;
  }

  /** The first qualifying price is found whenever everything before it is
      passed over: the converse of `ScanFrom`'s contract. */
  lemma {:induction false} ScanFindsFirst(prices: seq<string>, i: nat, k: nat)
    requires i <= k < |prices|
    requires Qualifies(ReadPrice(prices[k]))
    requires forall j :: i <= j < k ==> Skipped(ReadPrice(prices[j]))
    ensures ScanFrom(prices, i) == Found(k)
    decreases k - i
  {
    if i < k {
      ScanFindsFirst(prices, i + 1, k);
    }
  }

  /** No alert and no error exactly when every text is passed over; in
      particular a page with no matched price tags is a normal "nothing found". */
  lemma {:induction false} ScanNoneFoundIff(prices: seq<string>, i: nat)
    requires i <= |prices|
    ensures ScanFrom(prices, i) == NoneFound <==>
              forall j :: i <= j < |prices| ==> Skipped(ReadPrice(prices[j]))
    decreases |prices| - i
  {
    if i < |prices| {
      ScanNoneFoundIff(prices, i + 1);
    }
  }

  /** The ceiling is inclusive: 250 pounds qualifies, 251 does not. */
  lemma CeilingInclusive()
    ensures Qualifies(ReadPrice([Pound] + "250"))
    ensures ReadPrice([Pound] + "251") == Amount(251) && !Qualifies(ReadPrice([Pound] + "251"))
  {
    ReadPoundNumeral(250);
    assert ShowNat(250) == "250";
    ReadPoundNumeral(251);
    assert ShowNat(251) == "251";
  }

  /** Stripping a pound-prefixed, comma-grouped numeral leaves its digits. */
  lemma StripGroupedNumeral(a: string, b: string)
    requires AllDigits(a) && AllDigits(b)
    ensures StripSymbols([Pound] + a + [','] + b) == a + b
  {
    var rest := a + [','] + b;
    assert Pound !in rest by {
      assert forall i :: 0 <= i < |rest| ==> rest[i] == ',' || IsDigit(rest[i]);
    }
    assert ',' !in a && ',' !in b by {
      assert forall i :: 0 <= i < |a| ==> IsDigit(a[i]);
      assert forall i :: 0 <= i < |b| ==> IsDigit(b[i]);
    }
    ReplaceAllAppend([Pound], rest, Pound, []);
    assert ReplaceAll([Pound], Pound, []) == [];
    assert [Pound] + a + [','] + b == [Pound] + rest;
    var inner := ReplaceAll([Pound] + rest, Pound, []);
    assert inner == rest;
    ReplaceAllAppend(a + [','], b, ',', []);
    ReplaceAllAppend(a, [','], ',', []);
    assert ReplaceAll([','], ',', []) == [];
    assert ReplaceAll(a, ',', []) == a;
    assert ReplaceAll(b, ',', []) == b;
    assert ReplaceAll(a + [','], ',', []) == a;
    assert ReplaceAll(rest, ',', []) == a + b;
    assert StripSymbols([Pound] + a + [','] + b) == ReplaceAll(inner, ',', []);
  }

  /** Thousands separators are read through. */
  lemma ThousandsSeparator()
    ensures ReadPrice([Pound] + "1,250") == Amount(1250)
  {
    StripGroupedNumeral("1", "250");
    assert [Pound] + "1" + [','] + "250" == [Pound] + "1,250";
    assert "1" + "250" == "1250";
    DecimalOf1250();
  }

  lemma DecimalOf1250()
    ensures ParseDecimal("1250") == Some(1250)
  {
    assert AllDigits("1250");
    assert "1"[..0] == [];
    assert DecimalValue("1") == 1;
    assert "12"[..1] == "1";
    assert DecimalValue("12") == 12;
    assert "125"[..2] == "12";
    assert DecimalValue("125") == 125;
    assert "1250"[..3] == "125";
    assert DecimalValue("1250") == 1250;
  }

  /** A text `int()` rejects aborts the scan even when a later price would
      have qualified. */
  lemma UnparsableAbortsScan()
    ensures Qualifies(ReadPrice([Pound] + "100"))
    ensures ScanFrom([[Pound] + "TBC", [Pound] + "100"], 0) == ParseFailure(0)
  {
    ReadPoundNumeral(100);
    assert ShowNat(100) == "100";
    assert StripSymbols([Pound] + "TBC") == "TBC";
  }
}
