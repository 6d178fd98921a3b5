/** Room codes: how `createRoom` draws a fresh code and how `joinRoom`
    checks a typed code before it asks the store whether the room exists. */
module RoomDirectory {
  import opened JsText
  import opened Draw

  /** The 32 symbols of a room code: capitals and digits without the
      look-alikes I, O, 0 and 1. */
  const Alphabet: string := "ABCDEFGHJKLMNPQRSTUVWXYZ23456789"

  const CodeLength: nat := 6

  /** A capital other than I and O, or a digit other than 0 and 1. */
  predicate IsCodeSymbol(c: char) {
    ('A' <= c <= 'Z' && c != 'I' && c != 'O') || ('2' <= c <= '9')
  }

  /** The position of a code symbol in `Alphabet`. */
  function SymbolIndex(c: char): int {
    if 'A' <= c <= 'H' then c as int - 'A' as int
    else if 'J' <= c <= 'N' then c as int - 'A' as int - 1
    else if 'P' <= c <= 'Z' then c as int - 'A' as int - 2
    else c as int - '2' as int + 24
  }

  /** The alphabet has 32 different symbols, none of them a look-alike. */
  lemma AlphabetShape()
    ensures |Alphabet| == 32
    ensures forall k :: 0 <= k < |Alphabet| ==> IsCodeSymbol(Alphabet[k])
    ensures forall i, j :: 0 <= i < j < |Alphabet| ==> Alphabet[i] != Alphabet[j]
  {
    forall k | 0 <= k < |Alphabet|
      ensures IsCodeSymbol(Alphabet[k]) && SymbolIndex(Alphabet[k]) == k
    {
    }
  }

  /** `chars.charAt(Math.floor(Math.random() * chars.length))`. */
  function SymbolFor(r: real): (c: char)
    requires 0.0 <= r < 1.0
    ensures IsCodeSymbol(c)
  {
    AlphabetShape();
    Alphabet[Pick(r, |Alphabet|)]
  }

  predicate OverAlphabet(code: string) {
    forall i :: 0 <= i < |code| ==> IsCodeSymbol(code[i])
  }

  /** `generateRoomCode`: six symbols, the i-th chosen by the i-th draw of
      `Math.random()`. */
  method GenerateRoomCode(draws: seq<real>) returns (code: string)
    requires |draws| == CodeLength
    requires forall i :: 0 <= i < |draws| ==> 0.0 <= draws[i] < 1.0
    ensures |code| == CodeLength && OverAlphabet(code)
    ensures forall i :: 0 <= i < CodeLength ==> code[i] == SymbolFor(draws[i])
  {
    code := "";
    for i := 0 to CodeLength
      invariant |code| == i
      invariant forall k :: 0 <= k < i ==> code[k] == SymbolFor(draws[k])
    {
      code := code + [SymbolFor(draws[i])];
    }
  }

  /** Every symbol is drawn with the same probability 1/32. */
  lemma SymbolForUniform(r: real, k: nat)
    requires 0.0 <= r < 1.0 && k < |Alphabet|
    ensures SymbolFor(r) == Alphabet[k] <==> (k as real) / 32.0 <= r < ((k + 1) as real) / 32.0
  {
    AlphabetShape();
    PickUniform(r, |Alphabet|, k);
  }

  /** `input.value.trim().toUpperCase()`. */
  function NormalizeCode(input: string): string {
    ToUpper(Trim(input))
  }

  /** The check `!roomCode || roomCode.length !== 6`, negated. */
  predicate WellFormedCode(code: string) {
    code != [] && Utf16Length(code) == CodeLength
  }

  /** The path of a room in the store. */
  function RoomPath(code: string): string {
    "rooms/" + code
  }

  /** How `joinRoom` ends. */
  datatype JoinOutcome =
    | InvalidCode          // "Please enter a valid 6-character room code."
    | NotConnected         // no database handle
    | ReadFailed           // the existence read threw
    | RoomNotFound         // the snapshot does not exist
    | Joined(code: string) // `enterRoom(code)` runs

  /** The decision `joinRoom` takes, given whether a database handle exists,
      the codes of the rooms the store holds, and whether the read fails.
      A malformed code is refused before the store is consulted: for it the
      outcome is `InvalidCode` whatever the store holds; otherwise the room is
      entered exactly when the read succeeds and finds the code. */
  function JoinDecision(input: string, connected: bool, rooms: set<string>, readFails: bool): (r: JoinOutcome)
    ensures r == InvalidCode <==> !WellFormedCode(NormalizeCode(input))
    ensures r.Joined? <==>
      WellFormedCode(NormalizeCode(input)) && connected && !readFails && NormalizeCode(input) in rooms
    ensures r.Joined? ==> r.code == NormalizeCode(input) && r.code in rooms
    ensures r == NotConnected <==> WellFormedCode(NormalizeCode(input)) && !connected
    ensures r == ReadFailed <==> WellFormedCode(NormalizeCode(input)) && connected && readFails
    ensures r == RoomNotFound <==>
      WellFormedCode(NormalizeCode(input)) && connected && !readFails && NormalizeCode(input) !in rooms
  {
    var code := NormalizeCode(input);
    if !WellFormedCode(code) then InvalidCode
    else if !connected then NotConnected
    else if readFails then ReadFailed
    else if code in rooms then Joined(code)
    else RoomNotFound
  }

  lemma UpperOfAlphabet(code: string)
    requires OverAlphabet(code)
    ensures ToUpper(code) == code
    ensures ToUpper(ToLower(code)) == code
  {
    forall i | 0 <= i < |code|
      ensures UpperChar(code[i]) == code[i] && UpperChar(LowerChar(code[i])) == code[i]
    {
      assert IsCodeSymbol(code[i]);
    }
  }

  /** A code `generateRoomCode` produces passes `joinRoom`'s check, also when
      typed in lower case with white space around it, and normalizes back to
      itself. */
  lemma GeneratedCodeIsJoinable(code: string, lead: string, trail: string)
    requires |code| == CodeLength && OverAlphabet(code)
    requires AllWhitespace(lead) && AllWhitespace(trail)
    ensures NormalizeCode(lead + ToLower(code) + trail) == code
    ensures WellFormedCode(code)
  {
    var low := ToLower(code);
    assert IsCodeSymbol(code[0]) && IsCodeSymbol(code[5]);
    assert low[0] == LowerChar(code[0]) && low[5] == LowerChar(code[5]);
    TrimPadded(lead, low, trail);
    UpperOfAlphabet(code);
    assert forall i :: 0 <= i < |code| ==> code[i] as int <= 0xFFFF;
  }
}
