// What the URI parser makes of texts other programs may write: form encoding, malformed escapes, numbers
// with signs and spaces, and URIs that name only some of the parameters.
module DvbTexts {
  import opened Helpers
  import opened DvbUri

  // ----- Percent coding by others ---------------------------------------------------------

  const LOWER_HEX := "0123456789abcdef"

  // Form encoding: a plus sign for a space, and codes in lower case.
  function FormChar(c: char): string
    requires c as int < 256
  {
    if c == ' ' then "+"
    else if Unreserved(c) then [c]
    else ['%', LOWER_HEX[c as int / 16], LOWER_HEX[c as int % 16]]
  }

  function FormText(s: string): string
    requires IsBytes(s)
    decreases |s|
  {
    if s == "" then "" else FormChar(s[0]) + FormText(s[1..])
  }

  lemma LowerHexDigit(n: nat)
    requires n < 16
    ensures Digit(LOWER_HEX[n]) == Some(n)
  {
  }

  lemma FormFirst(c: char, rest: string)
    requires c as int < 256
    ensures Decode(FormChar(c) + rest) == [c] + Decode(rest)
  {
    var text := FormChar(c) + rest;
    if c == ' ' || Unreserved(c) {
      assert text[1..] == rest;
    } else {
      LowerHexDigit(c as int / 16);
      LowerHexDigit(c as int % 16);
      assert text[3..] == rest;
    }
  }

  // MAIN: form-encoded texts are decoded too.
  lemma {:induction false} FormTextComesBack(s: string)
    requires IsBytes(s)
    ensures Decode(FormText(s)) == s
    decreases |s|
  {
    if s != "" {
      FormFirst(s[0], FormText(s[1..]));
      FormTextComesBack(s[1..]);
    }
  }

  const SMALL := "abcdefghijklmnopqrstuvwxyz"
  const LARGE := "ABCDEFGHIJKLMNOPQRSTUVWXYZ"
  const DIGITS := "0123456789"

  lemma IsSmall(c: char)
    ensures c in SMALL <==> 'a' <= c <= 'z'
  {
    assert 'a' <= c <= 'z' ==> c == SMALL[c as int - 'a' as int];
  }

  lemma IsLarge(c: char)
    ensures c in LARGE <==> 'A' <= c <= 'Z'
  {
    assert 'A' <= c <= 'Z' ==> c == LARGE[c as int - 'A' as int];
  }

  lemma IsDecimal(c: char)
    ensures c in DIGITS <==> '0' <= c <= '9'
  {
    assert '0' <= c <= '9' ==> c == DIGITS[c as int - '0' as int];
  }

  // Printing escapes exactly what section 2.3 of RFC 3986 does not leave unreserved, in capitals.
  lemma EscapedExactly(c: char)
    requires c as int < 256
    ensures EncodeChar(c) == if c in SMALL || c in LARGE || c in DIGITS || c in "-._~" then [c]
                             else ['%', "0123456789ABCDEF"[c as int / 16], "0123456789ABCDEF"[c as int % 16]]
  {
    IsSmall(c);
    IsLarge(c);
    IsDecimal(c);
  }

  predicate IsHex(c: char) {
    '0' <= c <= '9' || 'a' <= c <= 'f' || 'A' <= c <= 'F'
  }

  // A percent sign that is not followed by two hexadecimal digits stands for itself.
  lemma MalformedEscapeIsKept(rest: string)
    requires |rest| < 2 || !IsHex(rest[0]) || !IsHex(rest[1])
    ensures Decode("%" + rest) == "%" + Decode(rest)
  {
    assert ("%" + rest)[1..] == rest;
  }

  // ----- Numbers ----------------------------------------------------------------------------

  predicate AllSpaces(s: string) {
    forall i :: 0 <= i < |s| ==> s[i] == ' ' || 9 <= s[i] as int <= 13
  }

  predicate IsSign(sign: string) { sign == "" || sign == "+" || sign == "-" }

  // Spaces, a sign or none, and digits up to the end.
  ghost predicate NumberIs(s: string, spaces: string, sign: string, digits: string) {
    s == spaces + (sign + digits) && AllSpaces(spaces) && IsSign(sign) && digits != "" && AllDigits(digits)
  }

  lemma {:induction false} SpacesAreSkipped(spaces: string, rest: string)
    requires AllSpaces(spaces) && (rest != "" ==> !IsSpace(rest[0]))
    ensures SkipSpace(spaces + rest) == rest
    decreases |spaces|
  {
    if spaces == "" {
      assert spaces + rest == rest;
    } else {
      assert (spaces + rest)[1..] == spaces[1..] + rest;
      SpacesAreSkipped(spaces[1..], rest);
    }
  }

  lemma {:induction false} SkippedAreSpaces(s: string) returns (spaces: string)
    ensures s == spaces + SkipSpace(s) && AllSpaces(spaces)
    decreases |s|
  {
    spaces := "";
    if s != "" && IsSpace(s[0]) {
      var more := SkippedAreSpaces(s[1..]);
      spaces := [s[0]] + more;
    }
  }

  lemma NumberIsRead(s: string, spaces: string, sign: string, digits: string)
    requires NumberIs(s, spaces, sign, digits)
    ensures SignedNumber(s) == Some(Signed(sign == "-", DigitsValue(digits)))
  {
    var t := sign + digits;
    assert IsDigit(digits[0]);
    SpacesAreSkipped(spaces, t);
    if sign == "" { assert t == digits; } else { assert t[1..] == digits; }
  }

  lemma ReadIsNumber(s: string) returns (spaces: string, sign: string, digits: string)
    requires SignedNumber(s).Some?
    ensures NumberIs(s, spaces, sign, digits)
  {
    spaces := SkippedAreSpaces(s);
    var t := SkipSpace(s);
    if t[0] == '-' || t[0] == '+' {
      sign, digits := [t[0]], t[1..];
    } else {
      sign, digits := "", t;
    }
  }

  // MAIN: an int parameter takes exactly the texts of spaces, sign and digits in its range; trailing
  // characters and everything else are refused.
  lemma IntTextsExactly(s: string, value: int)
    ensures ToInt(s) == Some(value) <==>
              exists spaces, sign, digits ::
                && NumberIs(s, spaces, sign, digits)
                && (var n: int := DigitsValue(digits); value == if sign == "-" then -n else n)
                && -2147483648 <= value <= 2147483647
  {
    if ToInt(s) == Some(value) {
      var spaces, sign, digits := ReadIsNumber(s);
      NumberIsRead(s, spaces, sign, digits);
    }
    forall spaces, sign, digits | NumberIs(s, spaces, sign, digits)
      ensures SignedNumber(s) == Some(Signed(sign == "-", DigitsValue(digits)))
    {
      NumberIsRead(s, spaces, sign, digits);
    }
  }

  // An unsigned parameter takes them up to 4294967295, and negative ones as they wrap at 64 bits.
  lemma UIntTextsExactly(s: string, value: int)
    ensures ToUInt(s) == Some(value) <==>
              exists spaces, sign, digits ::
                && NumberIs(s, spaces, sign, digits)
                && DigitsValue(digits) < 18446744073709551616
                && value == (if sign == "-" && DigitsValue(digits) > 0 then 18446744073709551616 - DigitsValue(digits)
                             else DigitsValue(digits))
                && value <= 4294967295
  {
    if ToUInt(s) == Some(value) {
      var spaces, sign, digits := ReadIsNumber(s);
      NumberIsRead(s, spaces, sign, digits);
    }
    forall spaces, sign, digits | NumberIs(s, spaces, sign, digits)
      ensures SignedNumber(s) == Some(Signed(sign == "-", DigitsValue(digits)))
    {
      NumberIsRead(s, spaces, sign, digits);
    }
  }

  // ----- URIs that name some parameters ----------------------------------------------------------

  function FieldItems(p: Params, fields: seq<Field>): seq<Item> {
    seq(|fields|, i requires 0 <= i < |fields| => Item(Name(fields[i]), Value(p, fields[i])))
  }

  predicate Distinct(fields: seq<Field>) {
    forall i, j :: 0 <= i < j < |fields| ==> fields[i] != fields[j]
  }

  lemma NamesAreDistinct(f: Field, g: Field)
    requires Name(f) == Name(g)
    ensures f == g
  {
    NameTells(f);
    NameTells(g);
  }

  lemma FieldItemsAreValid(p: Params, fields: seq<Field>)
    requires Representable(p)
    ensures ValidItems(FieldItems(p, fields))
  {
    forall i | 0 <= i < |fields| ensures ValidItem(FieldItems(p, fields)[i]) {
      ValueIsBytes(p, fields[i]);
      NameIsPlain(fields[i]);
    }
  }

  function PartialUri(p: Params, fields: seq<Field>): string
    requires Representable(p)
  {
    FieldItemsAreValid(p, fields);
    PREFIX + QueryText(FieldItems(p, fields))
  }

  lemma {:induction false} OnlyItemsArePut(m: map<string, string>, items: seq<Item>, key: string)
    requires key !in m && forall i :: 0 <= i < |items| ==> items[i].key != key
    ensures key !in PutAll(m, items)
    decreases |items|
  {
    if items != [] { OnlyItemsArePut(m[items[0].key := items[0].value], items[1..], key); }
  }

  // The query holds the named fields and no others.
  lemma PartialQueryHas(p: Params, fields: seq<Field>, f: Field)
    requires Representable(p) && Distinct(fields) && fields != []
    ensures IsDvbUri(PartialUri(p, fields))
    ensures Lookup(ParseQuery(PartialUri(p, fields)), f) == if f in fields then Some(Value(p, f)) else None
  {
    var items := FieldItems(p, fields);
    FieldItemsAreValid(p, fields);
    PrefixShape(QueryText(items));
    QueryRoundTrip(map[], items);
    if f in fields {
      var i :| 0 <= i < |fields| && fields[i] == f;
      forall j, k | 0 <= j < k < |items| ensures items[j].key != items[k].key {
        if items[j].key == items[k].key { NamesAreDistinct(fields[j], fields[k]); }
      }
      PutAllFinds(map[], items, i);
    } else {
      forall i | 0 <= i < |items| ensures items[i].key != Name(f) {
        if items[i].key == Name(f) { NamesAreDistinct(fields[i], f); }
      }
      OnlyItemsArePut(map[], items, Name(f));
    }
  }

  // The named parameters, and what was there before for the others.
  function Mixed(p: Params, initial: Params, fields: seq<Field>): Params {
    Params(
      if Adapter in fields then p.adapter else initial.adapter,
      if Frontend in fields then p.frontend else initial.frontend,
      if Frequency in fields then p.frequencyKHz else initial.frequencyKHz,
      if SymbolRate in fields then p.symbolRateK else initial.symbolRateK,
      if Polarity in fields then Upper(p.polarity) else initial.polarity,
      if DeliverySystem in fields then Lower(p.deliverySystem) else initial.deliverySystem,
      if Modulation in fields then Lower(p.modulation) else initial.modulation,
      if Fec in fields then Lower(p.fec) else initial.fec,
      if DiseqcSource in fields then p.diseqcSource else initial.diseqcSource,
      if LnbLof1 in fields then p.lnbLof1KHz else initial.lnbLof1KHz,
      if LnbLof2 in fields then p.lnbLof2KHz else initial.lnbLof2KHz,
      if LnbSlof in fields then p.lnbSlofKHz else initial.lnbSlofKHz,
      if StreamId in fields then p.streamId else initial.streamId,
      if Pids in fields then PidsOf(p) else initial.pids)
  }

  // What the query holds for a field.
  function Held(p: Params, fields: seq<Field>, f: Field): Option<string> {
    if f in fields then Some(Value(p, f)) else None
  }

  lemma NumberIsMixed(look: Field -> Option<string>, p: Params, initial: Params, fields: seq<Field>, f: Field)
    requires Representable(p) && !IsText(f)
    requires look(f) == Held(p, fields, f)
    ensures ReadNumber(look, initial, f) == Some(if f in fields then Number(p, f) else Number(initial, f))
  {
    if f in fields { NumberComesBack(look, p, initial, f); }
  }

  // What reading the numbers leaves.
  function MixedNumbers(p: Params, initial: Params, fields: seq<Field>): Params {
    Mixed(p, initial, fields).(polarity := initial.polarity, deliverySystem := initial.deliverySystem,
                               modulation := initial.modulation, fec := initial.fec, pids := initial.pids)
  }

  lemma NumbersAreMixed(read: Field -> Option<int>, p: Params, initial: Params, fields: seq<Field>)
    requires forall f :: !IsText(f) ==> read(f) == Some(if f in fields then Number(p, f) else Number(initial, f))
    ensures SetNumbers(read, initial) == Some(MixedNumbers(p, initial, fields))
  {
  }

  // The texts that are there, if any.
  function Given(there: bool, text: string): Option<string> { if there then Some(text) else None }

  lemma TextsAreHeld(p: Params, fields: seq<Field>)
    ensures Held(p, fields, Polarity) == Given(Polarity in fields, p.polarity)
    ensures Held(p, fields, DeliverySystem) == Given(DeliverySystem in fields, p.deliverySystem)
    ensures Held(p, fields, Modulation) == Given(Modulation in fields, p.modulation)
    ensures Held(p, fields, Fec) == Given(Fec in fields, p.fec)
    ensures Held(p, fields, Pids) == Given(Pids in fields, PidsOf(p))
  {
  }

  lemma TextsAreMixed(look: Field -> Option<string>, p: Params, initial: Params, fields: seq<Field>)
    requires look(Polarity) == Given(Polarity in fields, p.polarity)
    requires look(DeliverySystem) == Given(DeliverySystem in fields, p.deliverySystem)
    requires look(Modulation) == Given(Modulation in fields, p.modulation)
    requires look(Fec) == Given(Fec in fields, p.fec)
    requires look(Pids) == Given(Pids in fields, PidsOf(p))
    ensures ReadTexts(look, MixedNumbers(p, initial, fields)) == Mixed(p, initial, fields)
  {
    assert PidsOf(p) != "";
  }

  // MAIN: a URI that names some of the parameters, in any order, sets exactly those, in normal form, and
  // leaves the others as they were; the outcome is judged as a whole.
  lemma PartialUriSetsExactly(p: Params, initial: Params, fields: seq<Field>)
    requires Representable(p) && Distinct(fields) && fields != []
    ensures ParseUri(PartialUri(p, fields), initial) == Judged(Mixed(p, initial, fields))
  {
    var query := ParseQuery(PartialUri(p, fields));
    var look := f => Lookup(query, f);
    PartialQueryHas(p, fields, Pids);
    forall f: Field ensures look(f) == Held(p, fields, f) {
      PartialQueryHas(p, fields, f);
    }
    var read := f => ReadNumber(look, initial, f);
    forall f | !IsText(f) ensures read(f) == Some(if f in fields then Number(p, f) else Number(initial, f)) {
      NumberIsMixed(look, p, initial, fields, f);
    }
    NumbersAreMixed(read, p, initial, fields);
    TextsAreHeld(p, fields);
    TextsAreMixed(look, p, initial, fields);
  }

  // MAIN: a printed record is accepted exactly within the tuning limits, its texts in any case.
  lemma AcceptedExactly(p: Params, initial: Params)
    requires Representable(p)
    ensures ParseUri(Uri(p), initial).Accepted? <==>
              && 900000 <= p.frequencyKHz <= 14000000
              && 100 <= p.symbolRateK <= 60000
              && p.polarity in {"H", "V", "h", "v"}
              && Lower(p.deliverySystem) in {"dvb-s", "dvb-s2"}
  {
    ParseOfBuild(p, initial);
    PolarityInAnyCase(p.polarity);
  }

  lemma PolarityInAnyCase(s: string)
    ensures Upper(s) in {"H", "V"} <==> s in {"H", "V", "h", "v"}
  {
    if |s| == 1 { assert Upper(s) == [UpperChar(s[0])] && s == [s[0]]; }
  }

  // Letters change case, everything else stays.
  lemma CasesExactly(c: char, i: nat)
    requires i < 26
    ensures UpperChar(SMALL[i]) == LARGE[i] && LowerChar(LARGE[i]) == SMALL[i]
    ensures c !in SMALL ==> UpperChar(c) == c
    ensures c !in LARGE ==> LowerChar(c) == c
  {
    IsSmall(c);
    IsLarge(c);
  }

  // The scheme is read in any case.
  lemma SchemeInAnyCase(uri: string)
    ensures IsDvbUri(uri) <==>
              && |uri| >= 6 && (uri[0] == 'd' || uri[0] == 'D') && (uri[1] == 'v' || uri[1] == 'V')
              && (uri[2] == 'b' || uri[2] == 'B') && uri[3] == ':' && uri[4] == '/' && uri[5] == '/'
  {
    if |uri| >= 6 {
      var low := Lower(uri)[..6];
      assert low == SCHEME <==> forall i :: 0 <= i < 6 ==> low[i] == SCHEME[i];
      assert SCHEME[0] == 'd' && SCHEME[1] == 'v' && SCHEME[2] == 'b';
      assert SCHEME[3] == ':' && SCHEME[4] == '/' && SCHEME[5] == '/';
    }
  }
}
