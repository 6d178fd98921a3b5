/** The per-room suggestion quota: a counter kept only in this device's
    `localStorage` under `spinTheWheel_suggestions_<room>`, read back with
    `parseInt(…, 10)` and written with `toString()`. */
module Quota {
  import opened JsText

  /** `maxSuggestions`: how many choices one device may add to one room. */
  const MaxSuggestions: int := 2

  /** The value the counter holds: a JavaScript number, that is an integer,
      or NaN when the stored text is not a number (comparisons with NaN are
      false and `NaN + 1` is NaN). */
  datatype JsNumber = Num(n: int) | NaN

  /** `this.suggestionsUsed >= this.maxSuggestions`. */
  predicate AtQuota(used: JsNumber) {
    used.Num? && used.n >= MaxSuggestions
  }

  /** `this.suggestionsUsed++`. */
  function Increment(used: JsNumber): (r: JsNumber)
    ensures used.Num? <==> r.Num?
    ensures used.Num? ==> r.n == used.n + 1
    ensures AtQuota(used) ==> AtQuota(r)
    ensures used.Num? && used.n < MaxSuggestions ==> r.n <= MaxSuggestions
    ensures used.NaN? ==> !AtQuota(r)
  {
    match used
    case Num(n) => Num(n + 1)
    case NaN => NaN
  }

  predicate IsDigit(c: char) {
    '0' <= c <= '9'
  }

  function DigitChar(d: nat): (c: char)
    requires d < 10
    ensures IsDigit(c) && DigitValue(c) == d
  {
    ['0', '1', '2', '3', '4', '5', '6', '7', '8', '9'][d]
  }

  function DigitValue(c: char): nat
    requires IsDigit(c)
  {
    c as int - '0' as int
  }

  /** Decimal digits of `n`, most significant first, without leading zeros. */
  function DecimalDigits(n: nat): (s: string)
    ensures s != []
    ensures forall i :: 0 <= i < |s| ==> IsDigit(s[i])
  {
    if n < 10 then [DigitChar(n)] else DecimalDigits(n / 10) + [DigitChar(n % 10)]
  }

  /** `Number.prototype.toString()` for the values the counter can hold. */
  function NumberToString(x: JsNumber): (s: string)
    ensures s != [] && !IsJsWhitespace(s[0])
    ensures x.Num? && x.n < 0 <==> s[0] == '-'
  {
    match x
    case NaN => "NaN"
    case Num(n) => if n < 0 then "-" + DecimalDigits(-n) else DecimalDigits(n)
  }

  /** The longest prefix of decimal digits. */
  function LeadingDigits(s: string): (d: string)
    ensures |d| <= |s| && d == s[..|d|]
    ensures forall i :: 0 <= i < |d| ==> IsDigit(d[i])
    ensures |d| < |s| ==> !IsDigit(s[|d|])
  {
    if s != [] && IsDigit(s[0]) then
      var d := LeadingDigits(s[1..]);
      assert [s[0]] + d == s[..|d| + 1];
      [s[0]] + d
    else []
  }

  function DigitsValue(d: string): nat
    requires forall i :: 0 <= i < |d| ==> IsDigit(d[i])
  {
    if d == [] then 0 else DigitsValue(d[..|d| - 1]) * 10 + DigitValue(d[|d| - 1])
  }

  /** The value of the decimal digits at the head of `body`; NaN when there
      are none. */
  function ParseDigits(body: string): (r: JsNumber)
    ensures r.Num? ==> r.n >= 0
  {
    var d := LeadingDigits(body);
    if d == [] then NaN else Num(DigitsValue(d))
  }

  /** Unary minus on the counter's values. */
  function Negate(x: JsNumber): JsNumber {
    match x
    case NaN => NaN
    case Num(n) => Num(-n)
  }

  /** `parseInt(s, 10)`: skip leading white space, read an optional sign,
      then as many decimal digits as follow; NaN when there are none. */
  function ParseInt(s: string): (r: JsNumber)
    ensures TrimStart(s) == [] ==> r.NaN?
    ensures r.Num? && r.n < 0 ==> TrimStart(s)[0] == '-'
    ensures TrimStart(s) != [] && !IsDigit(TrimStart(s)[0]) && TrimStart(s)[0] != '-' && TrimStart(s)[0] != '+' ==> r.NaN?
  {
    var t := TrimStart(s);
    if t != [] && t[0] == '-' then Negate(ParseDigits(t[1..]))
    else if t != [] && t[0] == '+' then ParseDigits(t[1..])
    else ParseDigits(t)
  }

  lemma {:induction false} DigitsValueOfDecimal(n: nat)
    ensures DigitsValue(DecimalDigits(n)) == n
  {
    if n >= 10 {
      var s := DecimalDigits(n);
      assert s[..|s| - 1] == DecimalDigits(n / 10);
      DigitsValueOfDecimal(n / 10);
    }
  }

  lemma {:induction false} LeadingDigitsOfDigits(s: string)
    requires forall i :: 0 <= i < |s| ==> IsDigit(s[i])
    ensures LeadingDigits(s) == s
  {
    if s != [] {
      LeadingDigitsOfDigits(s[1..]);
    }
  }

  lemma TrimStartOfNonBlank(s: string)
    requires s != [] && !IsJsWhitespace(s[0])
    ensures TrimStart(s) == s
  {
  }

  lemma ParseDigitsOfDecimal(m: nat)
    ensures ParseDigits(DecimalDigits(m)) == Num(m)
  {
    LeadingDigitsOfDigits(DecimalDigits(m));
    DigitsValueOfDecimal(m);
  }

  lemma ParseIntOfNegative(m: nat)
    ensures ParseInt("-" + DecimalDigits(m)) == Num(-(m as int))
  {
    var s := "-" + DecimalDigits(m);
    TrimStartOfNonBlank(s);
    assert s[1..] == DecimalDigits(m);
    ParseDigitsOfDecimal(m);
  }

  lemma ParseIntOfNonNegative(m: nat)
    ensures ParseInt(DecimalDigits(m)) == Num(m)
  {
    var s := DecimalDigits(m);
    assert IsDigit(s[0]);
    TrimStartOfNonBlank(s);
    ParseDigitsOfDecimal(m);
  }

  /** Text that starts with neither white space, a sign nor a digit parses
      as NaN. */
  lemma ParseIntOfNonNumeric(s: string)
    requires s != [] && !IsJsWhitespace(s[0]) && !IsDigit(s[0])
    requires s[0] != '-' && s[0] != '+'
    ensures ParseInt(s) == NaN
  {
    TrimStartOfNonBlank(s);
  }

  /** Reading back what `toString()` wrote gives the same number, NaN
      included. */
  lemma ParseIntOfToString(x: JsNumber)
    ensures ParseInt(NumberToString(x)) == x
  {
    match x
    case NaN =>
      ParseIntOfNonNumeric(NumberToString(x));
    case Num(n) =>
      if n < 0 {
        ParseIntOfNegative(-n);
      } else {
        ParseIntOfNonNegative(n);
      }
  }

  /** The `localStorage` key of a room's counter. */
  function SuggestionsKey(room: string): string {
    "spinTheWheel_suggestions_" + room
  }

  /** The text `parseInt` falls back to when a room has no stored entry. */
  const DefaultCountText: string := "0"

  /** The fallback text reads as zero. */
  lemma DefaultCountIsZero()
    ensures ParseInt(DefaultCountText) == Num(0)
  {
    assert DefaultCountText == DecimalDigits(0);
    ParseIntOfNonNegative(0);
  }

  /** `loadSuggestionCount`: the stored text parsed, where a missing or
      empty entry stands for `DefaultCountText`, whose value is 0 (see
      `DefaultCountIsZero`). */
  function LoadSuggestionCount(storage: map<string, string>, room: string): (r: JsNumber)
    ensures SuggestionsKey(room) !in storage ==> r == Num(0)
    ensures SuggestionsKey(room) in storage && storage[SuggestionsKey(room)] != "" ==> r == ParseInt(storage[SuggestionsKey(room)])
  {
    var key := SuggestionsKey(room);
    if key in storage && storage[key] != "" then ParseInt(storage[key]) else Num(0)
  }

  /** `saveSuggestionCount`: the new storage after writing the counter. */
  function SaveSuggestionCount(storage: map<string, string>, room: string, used: JsNumber): (r: map<string, string>)
    ensures r.Keys == storage.Keys + {SuggestionsKey(room)}
    ensures forall k :: k in storage && k != SuggestionsKey(room) ==> r[k] == storage[k]
  {
    storage[SuggestionsKey(room) := NumberToString(used)]
  }

  lemma SuggestionsKeyInjective(a: string, b: string)
    requires SuggestionsKey(a) == SuggestionsKey(b)
    ensures a == b
  {
    var p := "spinTheWheel_suggestions_";
    assert a == SuggestionsKey(a)[|p|..];
    assert b == SuggestionsKey(b)[|p|..];
  }

  /** What a room's counter was saved as is what it loads as, and saving one
      room's counter leaves every other room's counter as it was. */
  lemma LoadAfterSave(storage: map<string, string>, room: string, used: JsNumber, other: string)
    ensures LoadSuggestionCount(SaveSuggestionCount(storage, room, used), room) == used
    ensures other != room ==>
      LoadSuggestionCount(SaveSuggestionCount(storage, room, used), other) == LoadSuggestionCount(storage, other)
  {
    assert NumberToString(used) != "";
    ParseIntOfToString(used);
    if other != room && SuggestionsKey(other) == SuggestionsKey(room) {
      SuggestionsKeyInjective(other, room);
    }
  }

  /** A room this device has never suggested in starts at zero, and so does
      one whose entry was cleared to the empty text. */
  lemma FreshRoomStartsAtZero(storage: map<string, string>, room: string)
    requires SuggestionsKey(room) !in storage || storage[SuggestionsKey(room)] == ""
    ensures LoadSuggestionCount(storage, room) == Num(0)
    ensures LoadSuggestionCount(storage, room) == ParseInt(DefaultCountText)
  {
    DefaultCountIsZero();
  }
}
