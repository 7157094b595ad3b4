// Satellite tuning parameters printed as a dvb:// URI and read back: percent encoding, the
// decimal texts of std::stoi and std::stoul, the query of key and value items, and the
// separate extractor of the conditional-access backend, which searches the text instead of
// parsing it.
module DvbUri {
  import opened Helpers

  // ----- Percent coding -----------------------------------------------------------------

  // A string of bytes.
  predicate IsBytes(s: string) {
    forall i :: 0 <= i < |s| ==> s[i] as int < 256
  }

  predicate Unreserved(c: char) {
    '0' <= c <= '9' || 'A' <= c <= 'Z' || 'a' <= c <= 'z' || c == '-' || c == '_' || c == '.' || c == '~'
  }

  predicate AllUnreserved(s: string) {
    forall i :: 0 <= i < |s| ==> Unreserved(s[i])
  }

  const HEX := "0123456789ABCDEF"

  function Digit(c: char): (d: Option<nat>)
    ensures d.Some? ==> d.value < 16
  {
    if '0' <= c <= '9' then Some(c as int - '0' as int)
    else if 'a' <= c <= 'f' then Some(c as int - 'a' as int + 10)
    else if 'A' <= c <= 'F' then Some(c as int - 'A' as int + 10)
    else None
  }

  function EncodeChar(c: char): (e: string)
    requires c as int < 256
    ensures e != ""
    ensures forall i :: 0 <= i < |e| ==> Unreserved(e[i]) || e[i] == '%'
  {
    if Unreserved(c) then [c] else ['%', HEX[c as int / 16], HEX[c as int % 16]]
  }

  function Encode(s: string): (e: string)
    requires IsBytes(s)
    ensures forall i :: 0 <= i < |e| ==> Unreserved(e[i]) || e[i] == '%'
    decreases |s|
  {
    if s == "" then "" else EncodeChar(s[0]) + Encode(s[1..])
  }

  predicate Escape(s: string) {
    |s| >= 3 && s[0] == '%' && Digit(s[1]).Some? && Digit(s[2]).Some?
  }

  function Decode(s: string): (d: string)
    ensures |d| <= |s|
    decreases |s|
  {
    if s == "" then ""
    else if Escape(s) then [(Digit(s[1]).value * 16 + Digit(s[2]).value) as char] + Decode(s[3..])
    else [if s[0] == '+' then ' ' else s[0]] + Decode(s[1..])
  }

  lemma HexDigit(n: nat)
    requires n < 16
    ensures Digit(HEX[n]) == Some(n)
    ensures HEX[n] != 'a'
  {
  }

  lemma DecodeFirst(c: char, rest: string)
    requires c as int < 256
    ensures Decode(EncodeChar(c) + rest) == [c] + Decode(rest)
  {
    var text := EncodeChar(c) + rest;
    if Unreserved(c) {
      assert text[1..] == rest;
    } else {
      HexDigit(c as int / 16);
      HexDigit(c as int % 16);
      assert text[3..] == rest;
    }
  }

  // MAIN: decoding inverts encoding on all byte strings.
  lemma {:induction false} DecodeInvertsEncode(s: string)
    requires IsBytes(s)
    ensures Decode(Encode(s)) == s
    decreases |s|
  {
    if s != "" {
      DecodeFirst(s[0], Encode(s[1..]));
      DecodeInvertsEncode(s[1..]);
    }
  }

  lemma {:induction false} UnreservedIsKept(s: string)
    requires AllUnreserved(s)
    ensures IsBytes(s) && Encode(s) == s && Decode(s) == s
    decreases |s|
  {
    if s != "" { UnreservedIsKept(s[1..]); }
    DecodeInvertsEncode(s);
  }

  // ----- Numbers -------------------------------------------------------------------------

  function Decimal(n: nat): (s: string)
    ensures s != "" && AllDigits(s)
  {
    if n < 10 then [HEX[n]] else Decimal(n / 10) + [HEX[n % 10]]
  }

  function IntText(n: int): string {
    if n < 0 then "-" + Decimal(-n) else Decimal(n)
  }

  predicate IsDigit(c: char) { '0' <= c <= '9' }

  predicate AllDigits(s: string) {
    forall i :: 0 <= i < |s| ==> IsDigit(s[i])
  }

  function DigitsValue(s: string): nat
    requires AllDigits(s)
    decreases |s|
  {
    if s == "" then 0 else DigitsValue(s[..|s| - 1]) * 10 + (s[|s| - 1] as int - '0' as int)
  }

  predicate IsSpace(c: char) {
    c == ' ' || 9 <= c as int <= 13
  }

  function SkipSpace(s: string): (r: string)
    ensures |r| <= |s|
    decreases |s|
  {
    if s != "" && IsSpace(s[0]) then SkipSpace(s[1..]) else s
  }

  // Sign and magnitude of a text that is a number up to its end.
  datatype Signed = Signed(negative: bool, magnitude: nat)

  function SignedNumber(s: string): Option<Signed> {
    var t := SkipSpace(s);
    var signed := t != "" && (t[0] == '-' || t[0] == '+');
    var digits := if signed then t[1..] else t;
    if digits == "" || !AllDigits(digits) then None
    else Some(Signed(signed && t[0] == '-', DigitsValue(digits)))
  }

  const INT_MAX: int := 0x7FFF_FFFF
  const UINT_MAX: int := 0xFFFF_FFFF
  const ULONG_SPAN: int := 0x1_0000_0000_0000_0000

  predicate IsInt(n: int) { -INT_MAX - 1 <= n <= INT_MAX }

  predicate IsUInt(n: int) { 0 <= n <= UINT_MAX }

  // std::stoi that must use the whole text.
  function ToInt(s: string): Option<int> {
    match SignedNumber(s)
    case None => None
    case Some(n) =>
      var value: int := if n.negative then 0 - n.magnitude as int else n.magnitude as int;
      if IsInt(value) then Some(value) else None
  }

  // std::stoul that must use the whole text and fit 32 bits; a minus sign negates modulo 2^64.
  function ToUInt(s: string): Option<int> {
    match SignedNumber(s)
    case None => None
    case Some(n) =>
      if n.magnitude >= ULONG_SPAN then None
      else
        var value: int := if n.negative then (ULONG_SPAN - n.magnitude) % ULONG_SPAN else n.magnitude;
        if value <= UINT_MAX then Some(value) else None
  }

  lemma {:induction false} DecimalRoundTrip(n: nat)
    ensures DigitsValue(Decimal(n)) == n
  {
    var s := Decimal(n);
    if n < 10 {
      assert s[..0] == "";
    } else {
      DecimalRoundTrip(n / 10);
      assert s[..|s| - 1] == Decimal(n / 10);
    }
  }

  lemma PlainNumber(digits: string)
    requires AllDigits(digits) && digits != ""
    ensures SignedNumber(digits) == Some(Signed(false, DigitsValue(digits)))
    ensures SignedNumber("-" + digits) == Some(Signed(true, DigitsValue(digits)))
  {
    assert ("-" + digits)[1..] == digits;
    assert IsDigit(digits[0]);
  }

  lemma IntTextIsNumber(n: int)
    ensures SignedNumber(IntText(n)) == Some(Signed(n < 0, if n < 0 then -n else n))
    ensures IntText(n) != "" && AllUnreserved(IntText(n))
  {
    var magnitude := if n < 0 then -n else n;
    DecimalRoundTrip(magnitude);
    PlainNumber(Decimal(magnitude));
  }

  lemma IntTextRoundTrip(n: int)
    ensures IntText(n) != "" && AllUnreserved(IntText(n))
    ensures IsInt(n) ==> ToInt(IntText(n)) == Some(n)
    ensures IsUInt(n) ==> ToUInt(IntText(n)) == Some(n)
  {
    IntTextIsNumber(n);
  }

  // ----- The query -------------------------------------------------------------------------

  predicate Without(s: string, c: char) {
    forall i :: 0 <= i < |s| ==> s[i] != c
  }

  // The first occurrence of a character, or the length.
  function IndexOf(s: string, c: char): (i: nat)
    ensures i <= |s|
    decreases |s|
  {
    if s == "" || s[0] == c then 0 else 1 + IndexOf(s[1..], c)
  }

  lemma {:induction false} IndexOfIs(s: string, c: char, i: nat)
    requires i <= |s| && (i < |s| ==> s[i] == c) && Without(s[..i], c)
    ensures IndexOf(s, c) == i
    decreases i
  {
    if i > 0 {
      assert s[..i][0] == s[0];
      assert s[1..][..i - 1] == s[..i][1..];
      IndexOfIs(s[1..], c, i - 1);
    }
  }

  function AddItem(m: map<string, string>, item: string): map<string, string> {
    var eq := IndexOf(item, '=');
    if eq < |item| then m[Decode(item[..eq]) := Decode(item[eq + 1..])] else m
  }

  // The pieces between the separators.
  function Split(query: string): (pieces: seq<string>)
    decreases |query|
  {
    var end := IndexOf(query, '&');
    if end < |query| then [query[..end]] + Split(query[end + 1..]) else [query]
  }

  function AddItems(m: map<string, string>, pieces: seq<string>): map<string, string>
    decreases |pieces|
  {
    if pieces == [] then m else AddItems(AddItem(m, pieces[0]), pieces[1..])
  }

  function ParseQuery(uri: string): map<string, string> {
    var pos := IndexOf(uri, '?');
    if pos < |uri| then AddItems(map[], Split(uri[pos + 1..])) else map[]
  }

  datatype Item = Item(key: string, value: string)

  function ItemText(it: Item): string
    requires IsBytes(it.value)
  {
    it.key + "=" + Encode(it.value)
  }

  predicate ValidItem(it: Item) {
    AllUnreserved(it.key) && IsBytes(it.value)
  }

  predicate ValidItems(items: seq<Item>) {
    forall i :: 0 <= i < |items| ==> ValidItem(items[i])
  }

  function QueryText(items: seq<Item>): string
    requires ValidItems(items)
    decreases |items|
  {
    if items == [] then ""
    else if |items| == 1 then ItemText(items[0])
    else ItemText(items[0]) + "&" + QueryText(items[1..])
  }

  function PutAll(m: map<string, string>, items: seq<Item>): map<string, string>
    decreases |items|
  {
    if items == [] then m else PutAll(m[items[0].key := items[0].value], items[1..])
  }

  lemma ItemIsOnePiece(it: Item)
    requires ValidItem(it)
    ensures Without(ItemText(it), '&')
  {
  }

  lemma ItemRoundTrip(m: map<string, string>, it: Item)
    requires ValidItem(it)
    ensures AddItem(m, ItemText(it)) == m[it.key := it.value]
  {
    var text, n := ItemText(it), |it.key|;
    assert Without(it.key, '=');
    IndexOfIs(text, '=', n);
    assert text[..n] == it.key && text[n + 1..] == Encode(it.value);
    UnreservedIsKept(it.key);
    DecodeInvertsEncode(it.value);
  }

  lemma AddFirst(m: map<string, string>, piece: string, more: seq<string>)
    ensures AddItems(m, [piece] + more) == AddItems(AddItem(m, piece), more)
  {
    assert ([piece] + more)[1..] == more;
  }

  lemma SplitAt(first: string, rest: string)
    requires Without(first, '&')
    ensures Split(first) == [first]
    ensures Split(first + "&" + rest) == [first] + Split(rest)
  {
    var text := first + "&" + rest;
    assert first[..|first|] == first == text[..|first|];
    IndexOfIs(first, '&', |first|);
    IndexOfIs(text, '&', |first|);
    assert text[|first| + 1..] == rest;
  }

  // Parsing the printed items puts every one of them, in order.
  lemma {:induction false} QueryRoundTrip(m: map<string, string>, items: seq<Item>)
    requires ValidItems(items) && items != []
    ensures AddItems(m, Split(QueryText(items))) == PutAll(m, items)
    decreases |items|
  {
    var first, rest := ItemText(items[0]), QueryText(items[1..]);
    ItemRoundTrip(m, items[0]);
    ItemIsOnePiece(items[0]);
    SplitAt(first, rest);
    if |items| == 1 {
      AddFirst(m, first, []);
      assert [first] + [] == [first];
    } else {
      AddFirst(m, first, Split(rest));
      QueryRoundTrip(m[items[0].key := items[0].value], items[1..]);
    }
  }

  predicate DistinctKeys(items: seq<Item>) {
    forall i, j :: 0 <= i < j < |items| ==> items[i].key != items[j].key
  }

  lemma {:induction false} PutAllKeeps(m: map<string, string>, items: seq<Item>, key: string)
    requires key in m && forall i :: 0 <= i < |items| ==> items[i].key != key
    ensures key in PutAll(m, items) && PutAll(m, items)[key] == m[key]
    decreases |items|
  {
    if items != [] { PutAllKeeps(m[items[0].key := items[0].value], items[1..], key); }
  }

  lemma {:induction false} PutAllFinds(m: map<string, string>, items: seq<Item>, i: nat)
    requires DistinctKeys(items) && i < |items|
    ensures items[i].key in PutAll(m, items) && PutAll(m, items)[items[i].key] == items[i].value
    decreases |items|
  {
    var n := m[items[0].key := items[0].value];
    if i == 0 {
      PutAllKeeps(n, items[1..], items[0].key);
    } else {
      PutAllFinds(n, items[1..], i - 1);
    }
  }

  // ----- The parameters -----------------------------------------------------------------------

  datatype Params = Params(
    adapter: int, frontend: int, frequencyKHz: int, symbolRateK: int, polarity: string,
    deliverySystem: string, modulation: string, fec: string, diseqcSource: int,
    lnbLof1KHz: int, lnbLof2KHz: int, lnbSlofKHz: int, streamId: int, pids: string)

  // What the C++ types allow.
  predicate Representable(p: Params) {
    && IsInt(p.adapter) && IsInt(p.frontend) && IsInt(p.diseqcSource) && IsInt(p.streamId)
    && IsUInt(p.frequencyKHz) && IsUInt(p.symbolRateK)
    && IsUInt(p.lnbLof1KHz) && IsUInt(p.lnbLof2KHz) && IsUInt(p.lnbSlofKHz)
    && IsBytes(p.polarity) && IsBytes(p.deliverySystem) && IsBytes(p.modulation) && IsBytes(p.fec) && IsBytes(p.pids)
  }

  function LowerChar(c: char): char {
    if 'A' <= c <= 'Z' then (c as int + 32) as char else c
  }

  function UpperChar(c: char): char {
    if 'a' <= c <= 'z' then (c as int - 32) as char else c
  }

  function Lower(s: string): string {
    seq(|s|, i requires 0 <= i < |s| => LowerChar(s[i]))
  }

  function Upper(s: string): string {
    seq(|s|, i requires 0 <= i < |s| => UpperChar(s[i]))
  }

  const SCHEME := "dvb://"

  predicate IsDvbUri(uri: string) {
    |uri| >= |SCHEME| && Lower(uri)[..|SCHEME|] == SCHEME
  }

  const ALL_PIDS := "8192"

  function PidsOf(p: Params): string {
    if p.pids == "" then ALL_PIDS else p.pids
  }

  // The query keys, in printing order.
  datatype Field =
    | Adapter | Frontend | Frequency | SymbolRate | Polarity | DeliverySystem | Modulation | Fec
    | DiseqcSource | LnbLof1 | LnbLof2 | LnbSlof | StreamId | Pids

  const ORDER := [Adapter, Frontend, Frequency, SymbolRate, Polarity, DeliverySystem, Modulation, Fec,
                  DiseqcSource, LnbLof1, LnbLof2, LnbSlof, StreamId, Pids]

  function Position(f: Field): (i: nat)
    ensures i < |ORDER| && ORDER[i] == f
  {
    match f
    case Adapter => 0
    case Frontend => 1
    case Frequency => 2
    case SymbolRate => 3
    case Polarity => 4
    case DeliverySystem => 5
    case Modulation => 6
    case Fec => 7
    case DiseqcSource => 8
    case LnbLof1 => 9
    case LnbLof2 => 10
    case LnbSlof => 11
    case StreamId => 12
    case Pids => 13
  }

  function Name(f: Field): string {
    match f
    case Adapter => "adapter"
    case Frontend => "frontend"
    case Frequency => "frequency_khz"
    case SymbolRate => "symbol_rate"
    case Polarity => "polarity"
    case DeliverySystem => "delivery_system"
    case Modulation => "modulation"
    case Fec => "fec"
    case DiseqcSource => "diseqc_source"
    case LnbLof1 => "lnb_lof1_khz"
    case LnbLof2 => "lnb_lof2_khz"
    case LnbSlof => "lnb_slof_khz"
    case StreamId => "stream_id"
    case Pids => "pids"
  }

  // Tells the names apart by their length and one character.
  function PositionOf(name: string): int {
    if |name| == 7 then 0
    else if |name| == 8 then (if name[0] == 'f' then 1 else 4)
    else if |name| == 13 then (if name[0] == 'f' then 2 else 8)
    else if |name| == 11 then 3
    else if |name| == 15 then 5
    else if |name| == 10 then 6
    else if |name| == 3 then 7
    else if |name| == 12 then (if name[4] == 's' then 11 else if name[7] == '1' then 9 else 10)
    else if |name| == 9 then 12
    else 13
  }

  lemma NameTells(f: Field)
    ensures PositionOf(Name(f)) == Position(f)
  {
  }

  lemma NameIsPlain(f: Field)
    ensures AllUnreserved(Name(f)) && Name(f) != ""
  {
  }

  // No name but the last one ends in an s.
  lemma NameEnds(f: Field)
    ensures Name(f) != "" && (f != Pids ==> Name(f)[|Name(f)| - 1] != 's')
  {
  }

  predicate IsText(f: Field) {
    f == Polarity || f == DeliverySystem || f == Modulation || f == Fec || f == Pids
  }

  // The parameters read by std::stoul; the other numbers are read by std::stoi.
  predicate IsUnsigned(f: Field) {
    f == Frequency || f == SymbolRate || f == LnbLof1 || f == LnbLof2 || f == LnbSlof
  }

  function Number(p: Params, f: Field): int
    requires !IsText(f)
  {
    match f
    case Adapter => p.adapter
    case Frontend => p.frontend
    case Frequency => p.frequencyKHz
    case SymbolRate => p.symbolRateK
    case DiseqcSource => p.diseqcSource
    case LnbLof1 => p.lnbLof1KHz
    case LnbLof2 => p.lnbLof2KHz
    case LnbSlof => p.lnbSlofKHz
    case StreamId => p.streamId
  }

  function Value(p: Params, f: Field): string {
    match f
    case Polarity => p.polarity
    case DeliverySystem => p.deliverySystem
    case Modulation => p.modulation
    case Fec => p.fec
    case Pids => PidsOf(p)
    case _ => IntText(Number(p, f))
  }

  function Items(p: Params): seq<Item> {
    seq(|ORDER|, i requires 0 <= i < |ORDER| => Item(Name(ORDER[i]), Value(p, ORDER[i])))
  }

  const PREFIX := "dvb://satellite?"

  lemma ValueIsBytes(p: Params, f: Field)
    requires Representable(p)
    ensures IsBytes(Value(p, f))
  {
    forall n: int ensures IsBytes(IntText(n)) { IntTextRoundTrip(n); }
  }

  lemma ItemsAreValid(p: Params)
    requires Representable(p)
    ensures ValidItems(Items(p))
  {
    forall i | 0 <= i < |ORDER| ensures ValidItem(Items(p)[i]) {
      ValueIsBytes(p, ORDER[i]);
      NameIsPlain(ORDER[i]);
    }
  }

  lemma KeysAreDistinct(p: Params)
    ensures DistinctKeys(Items(p))
  {
    forall i, j | 0 <= i < j < |ORDER| ensures Items(p)[i].key != Items(p)[j].key {
      NamesDiffer(i, j);
    }
  }

  lemma PositionInOrder(i: nat)
    requires i < |ORDER|
    ensures Position(ORDER[i]) == i
  {
  }

  lemma NamesDiffer(i: nat, j: nat)
    requires i < j < |ORDER|
    ensures Name(ORDER[i]) != Name(ORDER[j])
  {
    PositionInOrder(i);
    PositionInOrder(j);
    NameTells(ORDER[i]);
    NameTells(ORDER[j]);
  }

  function Uri(p: Params): string
    requires Representable(p)
  {
    ItemsAreValid(p);
    PREFIX + QueryText(Items(p))
  }

  function Lookup(query: map<string, string>, f: Field): Option<string> {
    if Name(f) in query then Some(query[Name(f)]) else None
  }

  // A missing or empty value leaves the parameter as it is.
  function ReadInt(found: Option<string>, current: int): Option<int> {
    if found.None? || found.value == "" then Some(current) else ToInt(found.value)
  }

  function ReadUInt(found: Option<string>, current: int): Option<int> {
    if found.None? || found.value == "" then Some(current) else ToUInt(found.value)
  }

  function ReadLower(found: Option<string>, current: string): string {
    if found.Some? then Lower(found.value) else current
  }

  datatype Parsed = Accepted(params: Params) | NotDvb | BadNumber | BadTuning(params: Params)

  predicate Tunable(p: Params) {
    && 900000 <= p.frequencyKHz <= 14000000
    && 100 <= p.symbolRateK <= 60000
    && (p.polarity == "H" || p.polarity == "V")
    && (p.deliverySystem == "dvb-s" || p.deliverySystem == "dvb-s2")
  }

  function Judged(p: Params): Parsed {
    if Tunable(p) then Accepted(p) else BadTuning(p)
  }

  function ReadNumber(look: Field -> Option<string>, p: Params, f: Field): Option<int> {
    if IsText(f) then None
    else if IsUnsigned(f) then ReadUInt(look(f), Number(p, f))
    else ReadInt(look(f), Number(p, f))
  }

  function SetNumbers(read: Field -> Option<int>, p: Params): Option<Params> {
    if exists f :: !IsText(f) && read(f).None? then None
    else
      Some(p.(adapter := read(Adapter).value, frontend := read(Frontend).value,
              frequencyKHz := read(Frequency).value, symbolRateK := read(SymbolRate).value,
              diseqcSource := read(DiseqcSource).value, lnbLof1KHz := read(LnbLof1).value,
              lnbLof2KHz := read(LnbLof2).value, lnbSlofKHz := read(LnbSlof).value,
              streamId := read(StreamId).value))
  }

  function ReadTexts(look: Field -> Option<string>, p: Params): Params {
    p.(polarity := if look(Polarity).Some? then Upper(look(Polarity).value) else p.polarity,
       deliverySystem := ReadLower(look(DeliverySystem), p.deliverySystem),
       modulation := ReadLower(look(Modulation), p.modulation),
       fec := ReadLower(look(Fec), p.fec),
       pids := if look(Pids).Some? && look(Pids).value != "" then look(Pids).value else p.pids)
  }

  function ParseFields(look: Field -> Option<string>, p: Params): Parsed {
    match SetNumbers(f => ReadNumber(look, p, f), p)
    case None => BadNumber
    case Some(n) => Judged(ReadTexts(look, n))
  }

  function ParseUri(uri: string, p: Params): Parsed {
    if !IsDvbUri(uri) then NotDvb
    else
      var query := ParseQuery(uri);
      ParseFields(f => Lookup(query, f), p)
  }

  // ----- Round trip ------------------------------------------------------------------------------

  function Normal(p: Params): Params {
    p.(polarity := Upper(p.polarity), deliverySystem := Lower(p.deliverySystem),
       modulation := Lower(p.modulation), fec := Lower(p.fec), pids := PidsOf(p))
  }

  lemma QuestionMarkAt(query: string)
    ensures IndexOf(PREFIX + query, '?') == |PREFIX| - 1
    ensures (PREFIX + query)[|PREFIX|..] == query
  {
    assert Without(PREFIX[..|PREFIX| - 1], '?');
    IndexOfIs(PREFIX + query, '?', |PREFIX| - 1);
  }

  lemma PrefixShape(query: string)
    ensures IsDvbUri(PREFIX + query)
    ensures ParseQuery(PREFIX + query) == AddItems(map[], Split(query))
  {
    var uri := PREFIX + query;
    assert Lower(uri)[..|SCHEME|] == SCHEME;
    QuestionMarkAt(query);
  }

  // Every printed field is found in the parsed query.
  lemma QueryHas(p: Params, f: Field)
    requires Representable(p)
    ensures IsDvbUri(Uri(p)) && Lookup(ParseQuery(Uri(p)), f) == Some(Value(p, f))
  {
    ItemsAreValid(p);
    PrefixShape(QueryText(Items(p)));
    QueryRoundTrip(map[], Items(p));
    KeysAreDistinct(p);
    PutAllFinds(map[], Items(p), Position(f));
  }

  lemma NumberComesBack(look: Field -> Option<string>, p: Params, initial: Params, f: Field)
    requires Representable(p) && !IsText(f) && look(f) == Some(Value(p, f))
    ensures ReadNumber(look, initial, f) == Some(Number(p, f))
  {
    IntTextRoundTrip(Number(p, f));
  }

  lemma NumbersAreSet(read: Field -> Option<int>, p: Params, initial: Params)
    requires forall f :: !IsText(f) ==> read(f) == Some(Number(p, f))
    ensures SetNumbers(read, initial)
         == Some(p.(polarity := initial.polarity, deliverySystem := initial.deliverySystem,
                    modulation := initial.modulation, fec := initial.fec, pids := initial.pids))
  {
  }

  lemma TextsComeBack(look: Field -> Option<string>, p: Params, n: Params)
    requires forall f :: look(f) == Some(Value(p, f))
    requires n == p.(polarity := n.polarity, deliverySystem := n.deliverySystem, modulation := n.modulation,
                     fec := n.fec, pids := n.pids)
    ensures ReadTexts(look, n) == Normal(p)
  {
    assert look(Pids).value != "";
  }

  // MAIN: whatever the parameters held before, parsing a printed record gives the record with
  // its letter case normalised, or rejects it exactly when that cannot be tuned.
  lemma ParseOfBuild(p: Params, initial: Params)
    requires Representable(p)
    ensures ParseUri(Uri(p), initial) == Judged(Normal(p))
  {
    var query := ParseQuery(Uri(p));
    var look := f => Lookup(query, f);
    QueryHas(p, Pids);
    forall f: Field ensures look(f) == Some(Value(p, f)) { QueryHas(p, f); }
    var read := f => ReadNumber(look, initial, f);
    forall f | !IsText(f) ensures read(f) == Some(Number(p, f)) { NumberComesBack(look, p, initial, f); }
    NumbersAreSet(read, p, initial);
    TextsComeBack(look, p, SetNumbers(read, initial).value);
  }

  // MAIN: a record survives printing and parsing exactly when it is tunable, has a PID list and
  // its texts are in the case the parser normalises to.
  lemma RoundTrip(p: Params, initial: Params)
    requires Representable(p)
    ensures ParseUri(Uri(p), initial) == Accepted(p)
       <==> Tunable(p) && p.pids != "" && Lower(p.modulation) == p.modulation && Lower(p.fec) == p.fec
  {
    ParseOfBuild(p, initial);
    if Tunable(p) { TunableIsNormal(p); }
  }

  lemma TunableIsNormal(p: Params)
    requires Tunable(p)
    ensures Upper(p.polarity) == p.polarity && Lower(p.deliverySystem) == p.deliverySystem
  {
  }

  // ----- The separate PID extractor of the CA backend ------------------------------------------

  // Where `needle` first occurs, if anywhere.
  function Find(s: string, needle: string): (r: Option<nat>)
    ensures r.Some? ==> r.value + |needle| <= |s|
    decreases |s|
  {
    if |s| < |needle| then None
    else if s[..|needle|] == needle then Some(0)
    else if s == "" then None
    else
      match Find(s[1..], needle)
      case None => None
      case Some(i) => Some(i + 1)
  }

  // Every occurrence of a three-character code, from the left, becomes a colon.
  function ToColon(s: string, code: string): string
    requires |code| == 3
    decreases |s|
  {
    if |s| < 3 then s
    else if s[..3] == code then ":" + ToColon(s[3..], code)
    else [s[0]] + ToColon(s[1..], code)
  }

  const PIDS_KEY := "pids="

  // The value up to the next separator, with both spellings of the colon's code replaced.
  function ListAt(rest: string): string {
    ToColon(ToColon(rest[..IndexOf(rest, '&')], "%3A"), "%3a")
  }

  function ListBehind(tail: string, key: string): string {
    match Find(tail, key)
    case None => ""
    case Some(at) => ListAt(tail[at + |key|..])
  }

  function ExtractPids(uri: string): string {
    var query := IndexOf(uri, '?');
    if query == |uri| then ""
    else
      ListBehind(uri[query + 1..], PIDS_KEY)
  }

  // The printed form of a character, and of a text, with colons left alone.
  function KeepColon(c: char): string
    requires c as int < 256
  {
    if c == ':' then ":" else EncodeChar(c)
  }

  function KeepColons(s: string): string
    requires IsBytes(s)
    decreases |s|
  {
    if s == "" then "" else KeepColon(s[0]) + KeepColons(s[1..])
  }

  predicate PlainPids(s: string) {
    forall i :: 0 <= i < |s| ==> Unreserved(s[i]) || s[i] == ':'
  }

  // No key but "pids" ends in an s, so no earlier equals sign follows one.
  ghost predicate NoSBeforeEquals(s: string) {
    forall i :: 0 <= i < |s| && s[i] == '=' ==> i > 0 && s[i - 1] != 's'
  }

  predicate EndsOtherwise(key: string) {
    key != "" && key[|key| - 1] != 's'
  }

  lemma ItemHasNoSBeforeEquals(it: Item)
    requires ValidItem(it) && EndsOtherwise(it.key)
    ensures NoSBeforeEquals(ItemText(it))
  {
  }

  lemma JoinHasNoSBeforeEquals(a: string, b: string)
    requires NoSBeforeEquals(a) && NoSBeforeEquals(b)
    ensures NoSBeforeEquals(a + "&" + b)
  {
    var s := a + "&" + b;
    forall i | 0 <= i < |s| && s[i] == '=' ensures i > 0 && s[i - 1] != 's' {
      if i < |a| {
        assert s[i] == a[i];
      } else {
        assert i != |a|;
        assert s[i] == b[i - |a| - 1];
      }
    }
  }

  lemma {:induction false} QueryHasNoSBeforeEquals(items: seq<Item>)
    requires ValidItems(items) && forall i :: 0 <= i < |items| ==> EndsOtherwise(items[i].key)
    ensures NoSBeforeEquals(QueryText(items))
    decreases |items|
  {
    if items != [] {
      ItemHasNoSBeforeEquals(items[0]);
      if |items| > 1 {
        QueryHasNoSBeforeEquals(items[1..]);
        JoinHasNoSBeforeEquals(ItemText(items[0]), QueryText(items[1..]));
      }
    }
  }

  lemma QueryOfMore(first: Item, more: seq<Item>)
    requires ValidItem(first) && ValidItems(more) && more != []
    ensures ValidItems([first] + more)
    ensures QueryText([first] + more) == ItemText(first) + "&" + QueryText(more)
  {
    assert ([first] + more)[1..] == more;
  }

  lemma {:induction false} QueryEndsInItem(items: seq<Item>, last: Item)
    requires ValidItems(items) && ValidItem(last) && items != []
    ensures ValidItems(items + [last])
    ensures QueryText(items + [last]) == QueryText(items) + "&" + ItemText(last)
    decreases |items|
  {
    var first, more := items[0], items[1..];
    if more == [] {
      assert items + [last] == [first] + [last];
      QueryOfMore(first, [last]);
    } else {
      assert items == [first] + more;
      assert items + [last] == [first] + (more + [last]);
      QueryEndsInItem(more, last);
      QueryOfMore(first, more);
      QueryOfMore(first, more + [last]);
      Associate(ItemText(first) + "&", QueryText(more), "&");
      Associate(ItemText(first) + "&", QueryText(more) + "&", ItemText(last));
    }
  }

  predicate Here(s: string, needle: string, at: nat) {
    at + |needle| <= |s| && s[at..at + |needle|] == needle
  }

  lemma HereShifts(s: string, needle: string, at: nat)
    requires s != ""
    ensures Here(s[1..], needle, at) == Here(s, needle, at + 1)
  {
    if at + 1 + |needle| <= |s| {
      assert s[1..][at..at + |needle|] == s[at + 1..at + 1 + |needle|];
    }
  }

  lemma {:induction false} FindIs(s: string, needle: string, at: nat)
    requires Here(s, needle, at) && needle != ""
    requires forall j: nat :: j < at ==> !Here(s, needle, j)
    ensures Find(s, needle) == Some(at)
    decreases at
  {
    assert s[0..0 + |needle|] == s[..|needle|];
    if at > 0 {
      assert !Here(s, needle, 0);
      HereShifts(s, needle, at - 1);
      forall j: nat | j < at - 1 ensures !Here(s[1..], needle, j) { HereShifts(s, needle, j); }
      FindIs(s[1..], needle, at - 1);
    }
  }

  lemma NotHere(s: string, j: nat)
    requires j + 5 <= |s| ==> s[j + 4] != '=' || s[j + 3] != 's'
    ensures !Here(s, PIDS_KEY, j)
  {
    if j + 5 <= |s| {
      assert s[j..j + 5][4] == s[j + 4] && s[j..j + 5][3] == s[j + 3];
      assert PIDS_KEY[4] == '=' && PIDS_KEY[3] == 's';
    }
  }

  // The first characters after the other items are "&pids", then comes the equals sign.
  lemma NoKeyBefore(before: string, s: string, j: nat)
    requires NoSBeforeEquals(before) && j <= |before| && |s| >= |before| + 6
    requires s[..|before|] == before
    requires s[|before|] == '&' && s[|before| + 1] == 'p' && s[|before| + 2] == 'i'
    requires s[|before| + 3] == 'd' && s[|before| + 4] == 's'
    ensures s[j + 4] != '=' || s[j + 3] != 's'
  {
    if j + 4 < |before| {
      assert s[j + 4] == before[j + 4] && s[j + 3] == before[j + 3];
    }
  }

  function Tail(before: string, value: string): string {
    before + "&" + (PIDS_KEY + value)
  }

  lemma KeyIsAt(before: string, value: string)
    ensures Here(Tail(before, value), PIDS_KEY, |before| + 1)
  {
    assert Tail(before, value)[|before| + 1..|before| + 1 + |PIDS_KEY|] == PIDS_KEY;
  }

  lemma NoKeyEarlier(before: string, value: string, j: nat)
    requires NoSBeforeEquals(before) && j <= |before|
    ensures !Here(Tail(before, value), PIDS_KEY, j)
  {
    var s := Tail(before, value);
    assert s[..|before|] == before;
    NoKeyBefore(before, s, j);
    NotHere(s, j);
  }

  // The extractor finds the value of the last item.
  lemma FindsPids(before: string, value: string)
    requires NoSBeforeEquals(before)
    ensures Find(Tail(before, value), PIDS_KEY) == Some(|before| + 1)
  {
    KeyIsAt(before, value);
    forall j: nat | j < |before| + 1 ensures !Here(Tail(before, value), PIDS_KEY, j) {
      NoKeyEarlier(before, value, j);
    }
    FindIs(Tail(before, value), PIDS_KEY, |before| + 1);
  }

  lemma ToColonStep(s: string, code: string)
    requires |code| == 3 && s != "" && (|s| >= 3 ==> s[..3] != code)
    ensures ToColon(s, code) == [s[0]] + ToColon(s[1..], code)
  {
  }

  lemma ToColonSkips(c: char, rest: string, code: string)
    requires |code| == 3 && code[0] == '%' && c != '%'
    ensures ToColon([c] + rest, code) == [c] + ToColon(rest, code)
  {
    var s := [c] + rest;
    assert s[1..] == rest;
    if |s| >= 3 { assert s[..3][0] == c; }
    ToColonStep(s, code);
  }

  lemma ToColonKeepsEscape(h: char, l: char, rest: string, code: string)
    requires |code| == 3 && code[0] == '%' && h != '%' && l != '%' && (h != code[1] || l != code[2])
    ensures ToColon(['%', h, l] + rest, code) == ['%', h, l] + ToColon(rest, code)
  {
    var s, t := ['%', h, l] + rest, ToColon(rest, code);
    assert s[..3][1] == h && s[..3][2] == l && s[1..] == [h] + ([l] + rest);
    ToColonSkips(l, rest, code);
    ToColonSkips(h, [l] + rest, code);
    ToColonStep(s, code);
    assert ['%'] + ([h] + ([l] + t)) == ['%', h, l] + t;
  }

  lemma ToColonOnChar(c: char, rest: string)
    requires c as int < 256
    ensures ToColon(EncodeChar(c) + rest, "%3A") == (if c == ':' then ":" else EncodeChar(c)) + ToColon(rest, "%3A")
    ensures c != ':' ==> ToColon(EncodeChar(c) + rest, "%3a") == EncodeChar(c) + ToColon(rest, "%3a")
  {
    var e := EncodeChar(c);
    if Unreserved(c) {
      ToColonSkips(c, rest, "%3A");
      ToColonSkips(c, rest, "%3a");
    } else if c == ':' {
      var s := e + rest;
      assert e == "%3A";
      assert s[..3] == "%3A" && s[3..] == rest;
    } else {
      HexDigit(c as int / 16);
      HexDigit(c as int % 16);
      ToColonKeepsEscape(e[1], e[2], rest, "%3A");
      ToColonKeepsEscape(e[1], e[2], rest, "%3a");
    }
  }

  lemma {:induction false} UpperCodes(s: string)
    requires IsBytes(s)
    ensures ToColon(Encode(s), "%3A") == KeepColons(s)
    decreases |s|
  {
    if s != "" {
      UpperCodes(s[1..]);
      ToColonOnChar(s[0], Encode(s[1..]));
    }
  }

  lemma {:induction false} LowerCodes(s: string)
    requires IsBytes(s)
    ensures ToColon(KeepColons(s), "%3a") == KeepColons(s)
    decreases |s|
  {
    if s != "" {
      LowerCodes(s[1..]);
      if s[0] == ':' {
        ToColonSkips(':', KeepColons(s[1..]), "%3a");
      } else {
        ToColonOnChar(s[0], KeepColons(s[1..]));
      }
    }
  }

  lemma {:induction false} KeepColonsIsPlain(s: string)
    requires IsBytes(s)
    ensures |KeepColons(s)| >= |s|
    ensures KeepColons(s) == s <==> PlainPids(s)
    decreases |s|
  {
    if s != "" {
      KeepColonsIsPlain(s[1..]);
      PlainFirst(s);
      KeptChar(s[0]);
      FirstThenRest(s[0], s[1..], KeepColon(s[0]), KeepColons(s[1..]));
      assert s == [s[0]] + s[1..];
    }
  }

  lemma PlainFirst(s: string)
    requires s != ""
    ensures PlainPids(s) <==> (Unreserved(s[0]) || s[0] == ':') && PlainPids(s[1..])
  {
    assert forall i :: 1 <= i < |s| ==> s[i] == s[1..][i - 1];
  }

  lemma KeptChar(c: char)
    requires c as int < 256
    ensures if Unreserved(c) || c == ':' then KeepColon(c) == [c] else |KeepColon(c)| == 3
  {
  }

  lemma FirstThenRest(c: char, more: string, first: string, rest: string)
    requires (first == [c] || |first| > 1) && |rest| >= |more|
    ensures first + rest == [c] + more <==> first == [c] && rest == more
  {
    if first + rest == [c] + more {
      assert |first + rest| == 1 + |more|;
      assert (first + rest)[1..] == rest && ([c] + more)[1..] == more;
    }
  }

  lemma {:induction false} KeepColonsDecodes(s: string)
    requires IsBytes(s)
    ensures Decode(KeepColons(s)) == s
    decreases |s|
  {
    if s != "" {
      var rest := KeepColons(s[1..]);
      KeepColonsDecodes(s[1..]);
      assert s == [s[0]] + s[1..];
      if s[0] == ':' {
        assert ([':'] + rest)[1..] == rest;
      } else {
        DecodeFirst(s[0], rest);
      }
    }
  }

  lemma PidsAreLast(p: Params)
    ensures |Items(p)| == 14 && Items(p)[13] == Item("pids", PidsOf(p))
    ensures forall i :: 0 <= i < 13 ==> EndsOtherwise(Items(p)[i].key)
  {
    forall i | 0 <= i < 13 ensures EndsOtherwise(Items(p)[i].key) {
      NameEnds(ORDER[i]);
    }
  }

  lemma UriEndsInPids(p: Params, before: string)
    requires Representable(p) && ValidItems(Items(p)) && ValidItems(Items(p)[..13])
    requires before == QueryText(Items(p)[..13])
    ensures NoSBeforeEquals(before)
    ensures QueryText(Items(p)) == before + "&" + (PIDS_KEY + Encode(PidsOf(p)))
  {
    var items := Items(p);
    PidsAreLast(p);
    QueryHasNoSBeforeEquals(items[..13]);
    QueryEndsInItem(items[..13], items[13]);
    assert items == items[..13] + [items[13]];
    assert "pids" + "=" == PIDS_KEY;
  }

  lemma ExtractLast(before: string, value: string)
    requires NoSBeforeEquals(before) && Without(value, '&')
    ensures ExtractPids(PREFIX + (before + "&" + (PIDS_KEY + value))) == ToColon(ToColon(value, "%3A"), "%3a")
  {
    var query := before + "&" + (PIDS_KEY + value);
    QuestionMarkAt(query);
    FindsPids(before, value);
    assert query[|before| + 1 + |PIDS_KEY|..] == value;
    IndexOfIs(value, '&', |value|);
    assert value[..|value|] == value;
  }

  // MAIN: the extractor returns the PID list with everything but colons still percent-encoded.
  // It is the list itself, as the URI parser reads it, exactly when the list is made of
  // unreserved characters and colons; decoding it always gives the list.
  lemma ExtractorAgrees(p: Params)
    requires Representable(p)
    ensures ExtractPids(Uri(p)) == PidsOf(p) <==> PlainPids(PidsOf(p))
    ensures Decode(ExtractPids(Uri(p))) == PidsOf(p)
  {
    ItemsAreValid(p);
    var before := QueryText(Items(p)[..13]);
    UriEndsInPids(p, before);
    assert Without(Encode(PidsOf(p)), '&');
    ExtractLast(before, Encode(PidsOf(p)));
    UpperCodes(PidsOf(p));
    LowerCodes(PidsOf(p));
    KeepColonsIsPlain(PidsOf(p));
    KeepColonsDecodes(PidsOf(p));
  }

  // ----- The loops of the source ---------------------------------------------------------------

  method PercentEncode(value: string) returns (out: string)
    requires IsBytes(value)
    ensures out == Encode(value)
  {
    out := "";
    var i := 0;
    while i < |value|
      invariant 0 <= i <= |value|
      invariant out + Encode(value[i..]) == Encode(value)
    {
      var c := value[i];
      ghost var rest := value[i..];
      assert rest[1..] == value[i + 1..];
      Associate(out, EncodeChar(c), Encode(rest[1..]));
      if Unreserved(c) {
        out := out + [c];
      } else {
        out := out + ['%', HEX[c as int / 16], HEX[c as int % 16]];
      }
      i := i + 1;
    }
  }

  method PercentDecode(value: string) returns (result: string)
    ensures result == Decode(value)
  {
    result := "";
    var i := 0;
    while i < |value|
      invariant 0 <= i <= |value|
      invariant result + Decode(value[i..]) == Decode(value)
      decreases |value| - i
    {
      ghost var rest := value[i..];
      if value[i] == '%' && i + 2 < |value| && Digit(value[i + 1]).Some? && Digit(value[i + 2]).Some? {
        var c := (Digit(value[i + 1]).value * 16 + Digit(value[i + 2]).value) as char;
        assert rest[3..] == value[i + 3..];
        Associate(result, [c], Decode(rest[3..]));
        result := result + [c];
        i := i + 3;
      } else {
        var c := if value[i] == '+' then ' ' else value[i];
        assert rest[1..] == value[i + 1..];
        Associate(result, [c], Decode(rest[1..]));
        result := result + [c];
        i := i + 1;
      }
    }
  }

  method FindChar(s: string, c: char, start: nat) returns (i: nat)
    requires start <= |s|
    ensures start <= i <= |s| && i == start + IndexOf(s[start..], c)
  {
    i := start;
    while i < |s| && s[i] != c
      invariant start <= i <= |s|
      invariant forall j :: start <= j < i ==> s[j] != c
    {
      i := i + 1;
    }
    IndexOfIs(s[start..], c, i - start);
  }

  method PutItem(before: map<string, string>, item: string) returns (values: map<string, string>)
    ensures values == AddItem(before, item)
  {
    values := before;
    assert item[0..] == item;
    var eq := FindChar(item, '=', 0);
    if eq < |item| {
      var key := PercentDecode(item[..eq]);
      var value := PercentDecode(item[eq + 1..]);
      values := values[key := value];
    }
  }

  lemma ItemSlices(query: string, start: nat, end: nat)
    requires start <= end <= |query|
    ensures query[start..][..end - start] == query[start..end]
    ensures if end < |query| then query[start..][end - start + 1..] == query[end + 1..]
            else query[start..end] == query[start..]
  {
  }

  lemma SplitOf(left: string, item: string, rest: string)
    requires IndexOf(left, '&') == |item| && item == left[..|item|]
    requires |item| < |left| ==> rest == left[|item| + 1..]
    ensures Split(left) == [item] + if |item| < |left| then Split(rest) else []
  {
    if |item| == |left| {
      assert item == left;
      assert [item] + [] == [item];
    }
  }

  lemma SplitStep(query: string, start: nat, end: nat)
    requires start <= end <= |query| && end == start + IndexOf(query[start..], '&')
    ensures Split(query[start..]) == [query[start..end]] + if end < |query| then Split(query[end + 1..]) else []
  {
    ItemSlices(query, start, end);
    SplitOf(query[start..], query[start..end], if end < |query| then query[end + 1..] else "");
  }

  // One turn of the loop over the items; `next` is past the separator when one is left.
  method NextItem(query: string, start: nat, before: map<string, string>)
    returns (values: map<string, string>, next: nat, last: bool)
    requires start <= |query|
    ensures last ==> values == AddItems(before, Split(query[start..]))
    ensures !last ==> start < next <= |query|
                      && AddItems(values, Split(query[next..])) == AddItems(before, Split(query[start..]))
  {
    var end := FindChar(query, '&', start);
    SplitStep(query, start, end);
    AddFirst(before, query[start..end], if end < |query| then Split(query[end + 1..]) else []);
    values := PutItem(before, query[start..end]);
    next, last := end + 1, end == |query|;
  }

  method ReadItems(query: string) returns (values: map<string, string>)
    ensures values == AddItems(map[], Split(query))
  {
    values := map[];
    var start, last := 0, false;
    assert query[0..] == query;
    while !last
      invariant !last ==> start <= |query| && AddItems(values, Split(query[start..])) == AddItems(map[], Split(query))
      invariant last ==> values == AddItems(map[], Split(query))
      decreases !last, |query| - start
    {
      values, start, last := NextItem(query, start, values);
    }
  }

  method ReadQuery(uri: string) returns (values: map<string, string>)
    ensures values == ParseQuery(uri)
  {
    assert uri[0..] == uri;
    var pos := FindChar(uri, '?', 0);
    if pos == |uri| { return map[]; }
    values := ReadItems(uri[pos + 1..]);
  }

  lemma {:induction false} ToColonFound(s: string, code: string)
    requires |code| == 3
    ensures ToColon(s, code)
         == match Find(s, code)
            case None => s
            case Some(i) => s[..i] + ":" + ToColon(s[i + 3..], code)
    decreases |s|
  {
    if |s| >= 3 && s[..3] != code {
      ToColonFound(s[1..], code);
      match Find(s[1..], code)
      case None =>
        assert [s[0]] + s[1..] == s;
      case Some(i) =>
        TailSlices(s, i, ToColon(s[i + 4..], code));
    }
  }

  lemma TailSlices(s: string, i: nat, rest: string)
    requires i + 4 <= |s|
    ensures s[1..][i + 3..] == s[i + 4..]
    ensures [s[0]] + (s[1..][..i] + ":" + rest) == s[..i + 1] + ":" + rest
  {
    assert [s[0]] + s[1..][..i] == s[..i + 1];
    Associate([s[0]], s[1..][..i], ":" + rest);
    Associate(s[1..][..i], ":", rest);
    Associate(s[..i + 1], ":", rest);
  }

  // The replacement loop: the search goes on behind the colon just written.
  method ReplaceCode(text: string, code: string) returns (value: string)
    requires |code| == 3
    ensures value == ToColon(text, code)
  {
    value := text;
    var pos, found := 0, true;
    ghost var all := ToColon(text, code);
    assert value[0..] == value;
    while found
      invariant pos <= |value| && value[..pos] + ToColon(value[pos..], code) == all
      invariant !found ==> value == all
      decreases found, |value| - pos
    {
      ToColonFound(value[pos..], code);
      match Find(value[pos..], code) {
        case None =>
          assert value[..pos] + value[pos..] == value;
          found := false;
        case Some(i) =>
          var next := ReplaceAt(value, pos, pos + i, code);
          value, pos := next, pos + i + 1;
      }
    }
  }

  method ReplaceAt(value: string, pos: nat, at: nat, code: string) returns (next: string)
    requires |code| == 3 && pos <= at && at + 3 <= |value|
    ensures next == value[..at] + ":" + value[at + 3..]
    ensures |next| == |value| - 2
    ensures next[..at + 1] + ToColon(next[at + 1..], code)
         == value[..pos] + (value[pos..][..at - pos] + ":" + ToColon(value[pos..][at - pos + 3..], code))
  {
    next := value[..at] + ":" + value[at + 3..];
    assert next[at + 1..] == value[at + 3..] == value[pos..][at - pos + 3..];
    assert next[..at + 1] == value[..pos] + (value[pos..][..at - pos] + ":");
  }

  method ReadList(rest: string) returns (value: string)
    ensures value == ListAt(rest)
  {
    assert rest[0..] == rest;
    var end := FindChar(rest, '&', 0);
    value := ReplaceCode(rest[..end], "%3A");
    value := ReplaceCode(value, "%3a");
  }

  method FindList(tail: string, key: string) returns (value: string)
    ensures value == ListBehind(tail, key)
  {
    match Find(tail, key) {
      case None => value := "";
      case Some(at) => value := ReadList(tail[at + |key|..]);
    }
  }

  method ExtractDvbPids(uri: string) returns (value: string)
    ensures value == ExtractPids(uri)
  {
    assert uri[0..] == uri;
    var query := FindChar(uri, '?', 0);
    if query == |uri| { return ""; }
    value := FindList(uri[query + 1..], PIDS_KEY);
  }
}
