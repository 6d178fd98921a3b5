/** The client object `SpinTheWheel`: its room, list, quota and spin state,
    and the handlers that change them. Store writes and reads, clocks and
    random draws arrive as parameters; a write that the store would carry out
    is returned as the record written. */
module App {
  import opened JsText
  import opened Snapshot
  import opened Draw
  import opened RoomDirectory
  import opened Quota
  import opened ChoiceList
  import opened Spin

  /** Longest accepted game name, in UTF-16 code units. */
  const MaxNameLength: nat := 30

  /** The record `createRoom` writes at `rooms/<code>` (its `games`,
      `spinning`, `result` and `spinData` start empty). */
  datatype RoomRecord = RoomRecord(created: int, createdBy: string)

  datatype CreateOutcome =
    | CreateNotConnected
    | CreateFailed
    | Created(code: string, record: RoomRecord)

  /** Why `addGame` refuses a name; `Blank` is refused silently. */
  datatype AddRefusal = Blank | QuotaExceeded | TooLong | Duplicate

  datatype AddCheck = Refused(why: AddRefusal) | Accepted(name: string)

  datatype AddOutcome = NotAdded(why: AddRefusal) | WriteFailed | Added(entry: GameEntry)

  /** The guards of `addGame`, in their order: blank input, quota, length,
      then a case-insensitive duplicate among the games this client sees. */
  function CheckAdd(games: seq<Game>, used: JsNumber, input: string): (r: AddCheck)
    ensures r == Refused(Blank) <==> Trim(input) == []
    ensures r == Refused(QuotaExceeded) <==> Trim(input) != [] && AtQuota(used)
    ensures r == Refused(TooLong) <==>
      Trim(input) != [] && !AtQuota(used) && Utf16Length(Trim(input)) > MaxNameLength
    ensures r == Refused(Duplicate) <==>
      Trim(input) != [] && !AtQuota(used) && Utf16Length(Trim(input)) <= MaxNameLength
      && HasNameIgnoringCase(games, Trim(input))
    ensures r.Accepted? ==>
      r.name == Trim(input) && !AtQuota(used) && Utf16Length(r.name) <= MaxNameLength
      && !HasNameIgnoringCase(games, r.name)
  {
    var name := Trim(input);
    if name == [] then Refused(Blank)
    else if AtQuota(used) then Refused(QuotaExceeded)
    else if Utf16Length(name) > MaxNameLength then Refused(TooLong)
    else if HasNameIgnoringCase(games, name) then Refused(Duplicate)
    else Accepted(name)
  }

  /** An accepted name is non-blank, trimmed, at most 30 code units long,
      differs from every listed name ignoring case, and comes with quota
      left; so a counter that starts within the cap stays within it. */
  lemma AcceptedNameIsNew(games: seq<Game>, used: JsNumber, input: string)
    requires CheckAdd(games, used, input).Accepted?
    ensures var name := CheckAdd(games, used, input).name;
      name != [] && Trim(name) == name && Utf16Length(name) <= MaxNameLength
      && (forall i :: 0 <= i < |games| ==> !SameIgnoringCase(games[i].name, name))
    ensures used.Num? && used.n <= MaxSuggestions ==> Increment(used).n <= MaxSuggestions
  {
    TrimIdempotent(input);
  }

  /** Conversely, a non-blank name within the length limit that is not yet
      listed is accepted while quota is left. */
  lemma AcceptedWhenGuardsPass(games: seq<Game>, used: JsNumber, input: string)
    requires Trim(input) != [] && !AtQuota(used) && Utf16Length(Trim(input)) <= MaxNameLength
    requires !HasNameIgnoringCase(games, Trim(input))
    ensures CheckAdd(games, used, input) == Accepted(Trim(input))
  {
  }

  /** With the quota used up, every non-blank attempt is refused on quota,
      however long the name and whether or not it is already listed. */
  lemma ThirdAttemptRefused(games: seq<Game>, input: string)
    requires Trim(input) != []
    ensures CheckAdd(games, Increment(Increment(Num(0))), input) == Refused(QuotaExceeded)
  {
  }

  /** Once the listener has delivered a snapshot holding a game, the same
      name (in any case) can no longer be accepted: adding it is refused. */
  lemma AddedNameBecomesDuplicate(e: seq<Entry<GameEntry>>, x: Entry<GameEntry>, used: JsNumber, input: string)
    requires KeysDistinct(e) && x in e
    requires SameIgnoringCase(x.1.name, Trim(input))
    ensures !CheckAdd(GamesFromSnapshot(e), used, input).Accepted?
  {
    var games := GamesFromSnapshot(e);
    assert GameOf(x) in games;
    var i :| 0 <= i < |games| && games[i] == GameOf(x);
    assert HasNameIgnoringCase(games, Trim(input));
  }

  /** A snapshot holding one game blocks only names equal to it ignoring
      case. */
  lemma OneGameBlocksOnlyItsName(k: string, x: GameEntry, name: string)
    requires !SameIgnoringCase(x.name, name)
    ensures KeysDistinct([(k, x)])
    ensures !HasNameIgnoringCase(GamesFromSnapshot([(k, x)]), name)
  {
    var games := GamesFromSnapshot([(k, x)]);
    assert games[0] == GameOf((k, x));
  }

  /** What the `animate` closure captured when the animation began. */
  datatype Animation = Animation(
    startRotation: real, totalRotation: real, targetRotation: real,
    winnerIndex: int, startTime: real)

  /** The presence path of a participant in a room. */
  function PresencePath(code: string, userId: string): string {
    RoomPath(code) + "/presence/" + userId
  }

  class SpinTheWheel {
    const userId: string
    /** Whether a database handle exists (`this.db`). */
    const connected: bool

    var currentRoom: Option<string>
    var roomRef: Option<string>
    var presenceRef: Option<string>
    var games: seq<Game>
    var isSpinning: bool
    var currentRotation: real
    var suggestionsUsed: JsNumber
    /** This device's `localStorage`. */
    var storage: map<string, string>
    /** The animation in flight, if any. */
    var animation: Option<Animation>

    /** The room references follow the current room, and a spin is running
        exactly when an animation is in flight. */
    ghost predicate Valid()
      reads this
    {
      (currentRoom.None? ==> roomRef.None? && presenceRef.None?)
      && (currentRoom.Some? ==>
            roomRef == Some(RoomPath(currentRoom.value))
            && presenceRef == Some(PresencePath(currentRoom.value, userId)))
      && (isSpinning <==> animation.Some?)
    }

    /** The constructor's state: no room, no games, not spinning. */
    constructor (userId: string, storage: map<string, string>, connected: bool)
      ensures Valid()
      ensures this.userId == userId && this.connected == connected && this.storage == storage
      ensures currentRoom.None? && games == [] && !isSpinning && currentRotation == 0.0
      ensures suggestionsUsed == Num(0)
    {
      this.userId := userId;
      this.connected := connected;
      this.storage := storage;
      currentRoom, roomRef, presenceRef := None, None, None;
      games, isSpinning, currentRotation := [], false, 0.0;
      suggestionsUsed := Num(0);
      animation := None;
    }

    /** `updateSpinButton`: whether the spin button is enabled; `SpinWheel`
        acts exactly when it is. */
    predicate SpinButtonEnabled(): (b: bool)
      reads this
      ensures b ==> |games| >= MinGamesToSpin && !isSpinning
    {
      SpinEnabled(|games|, isSpinning)
    }

    /** `enterRoom` (with `setupPresence` and `loadSuggestionCount`): the
        room becomes current and the quota counter is read for it. */
    method EnterRoom(code: string)
      requires Valid()
      modifies this`currentRoom, this`roomRef, this`presenceRef, this`suggestionsUsed
      ensures Valid()
      ensures currentRoom == Some(code) && roomRef == Some(RoomPath(code))
      ensures presenceRef == Some(PresencePath(code, userId))
      ensures suggestionsUsed == LoadSuggestionCount(storage, code)
    {
      currentRoom := Some(code);
      roomRef := Some(RoomPath(code));
      presenceRef := Some(PresencePath(code, userId));
      suggestionsUsed := LoadSuggestionCount(storage, code);
    }

    /** `createRoom`: draws a code and, once the room record is written,
        enters the room. */
    method CreateRoom(draws: seq<real>, now: int, writeOk: bool) returns (r: CreateOutcome)
      requires Valid()
      requires |draws| == CodeLength
      requires forall i :: 0 <= i < |draws| ==> 0.0 <= draws[i] < 1.0
      modifies this`currentRoom, this`roomRef, this`presenceRef, this`suggestionsUsed
      ensures Valid()
      ensures !connected ==> r == CreateNotConnected
      ensures connected && !writeOk ==> r == CreateFailed
      ensures r.Created? <==> connected && writeOk
      ensures r.Created? ==>
        |r.code| == CodeLength && OverAlphabet(r.code)
        && r.record == RoomRecord(now, userId)
        && currentRoom == Some(r.code)
        && suggestionsUsed == LoadSuggestionCount(storage, r.code)
      ensures !r.Created? ==> unchanged(this)
    {
      if !connected {
        return CreateNotConnected;
      }
      var code := GenerateRoomCode(draws);
      if !writeOk {
        return CreateFailed;
      }
      EnterRoom(code);
      r := Created(code, RoomRecord(now, userId));
    }

    /** `joinRoom`, given the codes of the rooms the store holds and whether
        the existence read fails. Only a successful join changes state. */
    method JoinRoom(input: string, rooms: set<string>, readFails: bool) returns (r: JoinOutcome)
      requires Valid()
      modifies this`currentRoom, this`roomRef, this`presenceRef, this`suggestionsUsed
      ensures Valid()
      ensures r == JoinDecision(input, connected, rooms, readFails)
      ensures r.Joined? ==>
        currentRoom == Some(r.code) && r.code in rooms
        && suggestionsUsed == LoadSuggestionCount(storage, r.code)
      ensures !r.Joined? ==> unchanged(this)
    {
      r := JoinDecision(input, connected, rooms, readFails);
      if r.Joined? {
        EnterRoom(r.code);
      }
    }

    /** `leaveRoom`: forgets the room, the list and the rotation. A running
        animation and the quota counter are left as they are. */
    method LeaveRoom()
      requires Valid()
      modifies this`currentRoom, this`roomRef, this`presenceRef, this`games, this`currentRotation
      ensures Valid()
      ensures currentRoom.None? && roomRef.None? && presenceRef.None?
      ensures games == [] && currentRotation == 0.0
    {
      currentRoom, roomRef, presenceRef := None, None, None;
      games := [];
      currentRotation := 0.0;
    }

    /** `addGame`, given the time and whether the push write succeeds. The
        list itself changes only when the `games` listener fires; here only
        the counter moves, by one, after a successful write, and is saved
        for the current room. */
    method AddGame(input: string, now: int, writeOk: bool) returns (r: AddOutcome)
      requires Valid()
      modifies this`suggestionsUsed, this`storage
      ensures Valid()
      ensures CheckAdd(games, old(suggestionsUsed), input).Refused? ==>
        r == NotAdded(CheckAdd(games, old(suggestionsUsed), input).why) && unchanged(this)
      ensures CheckAdd(games, old(suggestionsUsed), input).Accepted? && !(writeOk && roomRef.Some?) ==>
        r == WriteFailed
      ensures r.Added? <==>
        CheckAdd(games, old(suggestionsUsed), input).Accepted? && writeOk && roomRef.Some?
      ensures r.Added? ==>
        r.entry == GameEntry(Trim(input), userId, now)
        && suggestionsUsed == Increment(old(suggestionsUsed))
        && currentRoom.Some?
        && storage == SaveSuggestionCount(old(storage), currentRoom.value, suggestionsUsed)
      ensures !r.Added? ==> unchanged(this)
      ensures old(suggestionsUsed).Num? && old(suggestionsUsed).n <= MaxSuggestions ==>
        suggestionsUsed.Num? && suggestionsUsed.n <= MaxSuggestions
    {
      var check := CheckAdd(games, suggestionsUsed, input);
      if check.Refused? {
        return NotAdded(check.why);
      }
      if !writeOk || roomRef.None? {
        return WriteFailed;
      }
      assert !AtQuota(suggestionsUsed);
      suggestionsUsed := Increment(suggestionsUsed);
      storage := SaveSuggestionCount(storage, currentRoom.value, suggestionsUsed);
      r := Added(GameEntry(check.name, userId, now));
    }

    /** The `games` listener: the list becomes the snapshot sorted by key. */
    method OnGamesSnapshot(entries: seq<Entry<GameEntry>>)
      requires Valid() && KeysDistinct(entries)
      modifies this`games
      ensures Valid()
      ensures games == GamesFromSnapshot(entries)
      ensures forall i, j :: 0 <= i < j < |games| ==> KeyLess(games[i].id, games[j].id)
    {
      games := GamesFromSnapshot(entries);
    }

    /** `executeSpinAnimation`: ignored while a spin runs; otherwise the
        animation from the current rotation towards `target` begins. */
    method ExecuteSpinAnimation(target: real, winnerIndex: int, startTime: real) returns (started: bool)
      requires Valid()
      modifies this`isSpinning, this`animation
      ensures Valid()
      ensures started <==> !old(isSpinning)
      ensures !started ==> unchanged(this)
      ensures started ==>
        isSpinning
        && animation == Some(Animation(currentRotation, TotalRotation(currentRotation, target),
                                       target, winnerIndex, startTime))
    {
      if isSpinning {
        return false;
      }
      isSpinning := true;
      animation := Some(Animation(currentRotation, TotalRotation(currentRotation, target),
                                  target, winnerIndex, startTime));
      started := true;
    }

    /** `spinWheel`, given the two draws of `Math.random()`, the time, the
        animation clock and whether the broadcast write succeeds. */
    method SpinWheel(spinsDraw: real, winnerDraw: real, now: int, startTime: real, writeOk: bool)
      returns (broadcast: Option<SpinData>)
      requires Valid()
      requires 0.0 <= spinsDraw < 1.0 && 0.0 <= winnerDraw < 1.0
      modifies this`isSpinning, this`animation
      ensures Valid()
      ensures broadcast.Some? <==>
        old(SpinButtonEnabled()) && writeOk && roomRef.Some?
      ensures broadcast.None? ==> unchanged(this)
      ensures broadcast.Some? ==>
        var d := broadcast.value;
        var n := |games|;
        n >= MinGamesToSpin && 0 <= d.winnerIndex < n
        && d.winnerIndex == Pick(winnerDraw, n)
        && d.targetRotation == TargetRotationAsWritten(SpinsAsWritten(spinsDraw), d.winnerIndex, n)
        && d.startedBy == userId && d.timestamp == now
        && isSpinning
        && animation == Some(Animation(currentRotation, TotalRotation(currentRotation, d.targetRotation),
                                       d.targetRotation, d.winnerIndex, startTime))
    {
      if isSpinning || |games| < MinGamesToSpin {
        return None;
      }
      var n := |games|;
      var w := Pick(winnerDraw, n);
      var target := TargetRotationAsWritten(SpinsAsWritten(spinsDraw), w, n);
      if !writeOk || roomRef.None? {
        return None;
      }
      broadcast := Some(SpinData(target, w, userId, now));
      var _ := ExecuteSpinAnimation(target, w, startTime);
    }

    /** The `spinData` listener: replays a fresh announcement from someone
        else. While a spin runs, nothing changes, so a repeated or
        concurrent announcement cannot disturb the animation in flight. */
    method OnSpinData(data: Option<SpinData>, now: int, startTime: real) returns (replayed: bool)
      requires Valid()
      modifies this`isSpinning, this`animation
      ensures Valid()
      ensures replayed == ShouldReplay(data, now, old(isSpinning), userId)
      ensures !replayed ==> unchanged(this)
      ensures old(isSpinning) ==> unchanged(this)
      ensures replayed ==>
        isSpinning
        && animation == Some(Animation(currentRotation,
                                       TotalRotation(currentRotation, data.value.targetRotation),
                                       data.value.targetRotation, data.value.winnerIndex, startTime))
    {
      replayed := ShouldReplay(data, now, isSpinning, userId);
      if replayed {
        var _ := ExecuteSpinAnimation(data.value.targetRotation, data.value.winnerIndex, startTime);
      }
    }

    /** One call of the `animate` closure at time `currentTime`: draws the
        eased rotation; at full progress the spin ends, the rotation snaps to
        `target % 360`, and a result is written when the winner index still
        names a game in the list. */
    method AnimationFrame(currentTime: real, now: int) returns (written: Option<ResultRecord>)
      requires Valid() && animation.Some?
      modifies this`currentRotation, this`isSpinning, this`animation
      ensures Valid()
      ensures var a := old(animation).value;
        var p := Progress(currentTime - a.startTime);
        (p < 1.0 ==>
          isSpinning && animation == old(animation) && written.None?
          && currentRotation == FrameRotation(a.startRotation, a.totalRotation, p))
        && (p == 1.0 ==>
          !isSpinning && animation.None? && currentRotation == Rem360(a.targetRotation)
          && (written.Some? <==> 0 <= a.winnerIndex < |games| && roomRef.Some?)
          && (written.Some? ==> written.value == ResultRecord(games[a.winnerIndex].name, now)))
    {
      var a := animation.value;
      var p := Progress(currentTime - a.startTime);
      currentRotation := FrameRotation(a.startRotation, a.totalRotation, p);
      if p < 1.0 {
        return None;
      }
      isSpinning := false;
      currentRotation := Rem360(a.targetRotation);
      animation := None;
      if 0 <= a.winnerIndex < |games| && roomRef.Some? {
        written := Some(ResultRecord(games[a.winnerIndex].name, now));
      } else {
        written := None;
      }
    }
  }

  /** A new client on a device with empty storage that creates a room. */
  method NewClientInFreshRoom(userId: string, draws: seq<real>, now: int) returns (app: SpinTheWheel)
    requires |draws| == CodeLength
    requires forall i :: 0 <= i < |draws| ==> 0.0 <= draws[i] < 1.0
    ensures fresh(app) && app.Valid() && app.userId == userId
    ensures app.roomRef.Some? && app.games == [] && !app.isSpinning
    ensures app.suggestionsUsed == Num(0)
  {
    app := new SpinTheWheel(userId, map[], true);
    var created := app.CreateRoom(draws, now, true);
    FreshRoomStartsAtZero(map[], created.code);
  }

  /** One device in a fresh room: two different suggestions that pass the
      guards are written and counted (the listener delivering the first in
      between), and a third is refused on quota whatever it is. */
  method ThreeSuggestions(userId: string, draws: seq<real>, a: string, b: string, c: string,
                          keyA: string, now: int)
    returns (first: AddOutcome, second: AddOutcome, third: AddOutcome)
    requires |draws| == CodeLength
    requires forall i :: 0 <= i < |draws| ==> 0.0 <= draws[i] < 1.0
    requires Trim(a) != [] && Utf16Length(Trim(a)) <= MaxNameLength
    requires Trim(b) != [] && Utf16Length(Trim(b)) <= MaxNameLength
    requires !SameIgnoringCase(Trim(a), Trim(b))
    requires Trim(c) != []
    ensures first == Added(GameEntry(Trim(a), userId, now))
    ensures second == Added(GameEntry(Trim(b), userId, now))
    ensures third == NotAdded(QuotaExceeded)
  {
    var app := NewClientInFreshRoom(userId, draws, now);
    AcceptedWhenGuardsPass([], Num(0), a);
    first := app.AddGame(a, now, true);
    second := DeliverThenAdd(app, keyA, first.entry, b, now);
    ThirdAttemptRefused(app.games, c);
    third := app.AddGame(c, now, true);
  }

  /** The listener delivers the first suggestion, then a second one with a
      different name is written and counted. */
  method DeliverThenAdd(app: SpinTheWheel, key: string, entry: GameEntry, b: string, now: int)
    returns (second: AddOutcome)
    requires app.Valid() && app.roomRef.Some? && app.suggestionsUsed == Num(1)
    requires Trim(b) != [] && Utf16Length(Trim(b)) <= MaxNameLength
    requires !SameIgnoringCase(entry.name, Trim(b))
    modifies app`games, app`suggestionsUsed, app`storage
    ensures app.Valid() && app.suggestionsUsed == Increment(Increment(Num(0)))
    ensures app.games == GamesFromSnapshot([(key, entry)])
    ensures second == Added(GameEntry(Trim(b), app.userId, now))
  {
    OneGameBlocksOnlyItsName(key, entry, Trim(b));
    app.OnGamesSnapshot([(key, entry)]);
    AcceptedWhenGuardsPass(app.games, Num(1), b);
    second := app.AddGame(b, now, true);
  }

  /** One client in a room with at least two games spins: the spin is
      broadcast with the rotation as written, and the frame six seconds
      later ends it at that rotation with a result naming the announced
      game. The winner's slice is under the pointer only when the draw gave
      a whole number of turns. */
  method SpinToResult(userId: string, codeDraws: seq<real>, entries: seq<Entry<GameEntry>>,
                      spinsDraw: real, winnerDraw: real, now: int, startTime: real, end: int)
    returns (data: Option<SpinData>, rest: real, written: Option<ResultRecord>)
    requires |codeDraws| == CodeLength
    requires forall i :: 0 <= i < |codeDraws| ==> 0.0 <= codeDraws[i] < 1.0
    requires KeysDistinct(entries) && |entries| >= MinGamesToSpin
    requires 0.0 <= spinsDraw < 1.0 && 0.0 <= winnerDraw < 1.0
    ensures data.Some? && 0 <= data.value.winnerIndex < |entries|
    ensures data.value.targetRotation ==
      TargetRotationAsWritten(SpinsAsWritten(spinsDraw), data.value.winnerIndex, |entries|)
    ensures rest == Rem360(data.value.targetRotation)
    ensures (SpinsAsWritten(spinsDraw).Floor as real) == SpinsAsWritten(spinsDraw) ==>
      PointerSlice(rest, |entries|) == data.value.winnerIndex
    ensures written == Some(ResultRecord(GamesFromSnapshot(entries)[data.value.winnerIndex].name, end))
  {
    var app := NewClientInFreshRoom(userId, codeDraws, now);
    app.OnGamesSnapshot(entries);
    data := app.SpinWheel(spinsDraw, winnerDraw, now, startTime, true);
    rest, written := FinishSpin(app, end);
    if (SpinsAsWritten(spinsDraw).Floor as real) == SpinsAsWritten(spinsDraw) {
      AsWrittenAgreesOnWholeTurns(spinsDraw, data.value.winnerIndex, |entries|);
    }
  }

  /** The frame drawn six seconds after a spin began, which ends it. */
  method FinishSpin(app: SpinTheWheel, now: int) returns (rest: real, written: Option<ResultRecord>)
    requires app.Valid() && app.animation.Some?
    modifies app`currentRotation, app`isSpinning, app`animation
    ensures rest == Rem360(old(app.animation).value.targetRotation)
    ensures var w := old(app.animation).value.winnerIndex;
      written == if 0 <= w < |app.games| && app.roomRef.Some? then Some(ResultRecord(app.games[w].name, now)) else None
  {
    var start := app.animation.value.startTime;
    assert Progress((start + SpinDuration) - start) == 1.0;
    written := app.AnimationFrame(start + SpinDuration, now);
    rest := app.currentRotation;
  }

  /** The last frames on two clients animating the same spin, each at its
      own wall-clock time: both rest at the same angle and name the same
      game, each result stamped with its own client's time. */
  method FinishBoth(a: SpinTheWheel, b: SpinTheWheel, endA: int, endB: int)
    returns (restA: real, restB: real, resultA: Option<ResultRecord>, resultB: Option<ResultRecord>)
    requires a != b && a.Valid() && b.Valid() && a.animation.Some? && b.animation.Some?
    requires a.animation.value.targetRotation == b.animation.value.targetRotation
    requires a.animation.value.winnerIndex == b.animation.value.winnerIndex
    requires a.games == b.games && a.roomRef.Some? && b.roomRef.Some?
    requires 0 <= a.animation.value.winnerIndex < |a.games|
    modifies a`currentRotation, a`isSpinning, a`animation
    modifies b`currentRotation, b`isSpinning, b`animation
    ensures restA == restB && resultA.Some? && resultB.Some?
    ensures resultA.value.game == resultB.value.game
    ensures resultA.value.timestamp == endA && resultB.value.timestamp == endB
  {
    restA, resultA := FinishSpin(a, endA);
    restB, resultB := FinishSpin(b, endB);
  }

  /** `a` spins at `now` and `b` replays the announcement, received at
      `receivedB` while it is still fresh: both then animate towards the same
      target with the same winner. */
  method StartSharedSpin(a: SpinTheWheel, b: SpinTheWheel, spinsDraw: real, winnerDraw: real,
                         now: int, receivedB: int, startA: real, startB: real)
    requires a != b && a.Valid() && b.Valid() && a.userId != b.userId
    requires !a.isSpinning && !b.isSpinning && a.games == b.games && |a.games| >= MinGamesToSpin
    requires a.roomRef.Some? && b.roomRef.Some?
    requires 0.0 <= spinsDraw < 1.0 && 0.0 <= winnerDraw < 1.0
    requires now <= receivedB < now + SpinValidity
    modifies a`isSpinning, a`animation, b`isSpinning, b`animation
    ensures a.Valid() && b.Valid() && a.animation.Some? && b.animation.Some?
    ensures a.animation.value.targetRotation == b.animation.value.targetRotation
    ensures a.animation.value.winnerIndex == b.animation.value.winnerIndex
    ensures 0 <= a.animation.value.winnerIndex < |a.games|
  {
    var data := a.SpinWheel(spinsDraw, winnerDraw, now, startA, true);
    var replayed := b.OnSpinData(data, receivedB, startB);
  }

  /** A new client joins an existing room by a typed code and receives the
      room's `games` snapshot. */
  method JoinWithGames(userId: string, input: string, rooms: set<string>, entries: seq<Entry<GameEntry>>)
    returns (app: SpinTheWheel)
    requires WellFormedCode(NormalizeCode(input)) && NormalizeCode(input) in rooms
    requires KeysDistinct(entries)
    ensures fresh(app) && app.Valid() && app.userId == userId
    ensures app.roomRef.Some? && !app.isSpinning
    ensures app.games == GamesFromSnapshot(entries)
  {
    app := new SpinTheWheel(userId, map[], true);
    var joined := app.JoinRoom(input, rooms, false);
    app.OnGamesSnapshot(entries);
  }

  /** Two clients in one room, each joined by the same typed code: one
      spins, the other replays the broadcast it receives while it is fresh.
      Both wheels come to rest at the same angle, and both write results
      naming the same game, each stamped with its own client's time. */
  method TwoClientsAgree(alice: string, bob: string, input: string, rooms: set<string>,
                         entries: seq<Entry<GameEntry>>,
                         spinsDraw: real, winnerDraw: real, now: int, receivedB: int,
                         startA: real, startB: real, endA: int, endB: int)
    returns (restA: real, restB: real, resultA: Option<ResultRecord>, resultB: Option<ResultRecord>)
    requires alice != bob
    requires WellFormedCode(NormalizeCode(input)) && NormalizeCode(input) in rooms
    requires KeysDistinct(entries) && |entries| >= MinGamesToSpin
    requires 0.0 <= spinsDraw < 1.0 && 0.0 <= winnerDraw < 1.0
    requires now <= receivedB < now + SpinValidity
    ensures restA == restB
    ensures resultA.Some? && resultB.Some? && resultA.value.game == resultB.value.game
    ensures resultA.value.timestamp == endA && resultB.value.timestamp == endB
  {
    var a := JoinWithGames(alice, input, rooms, entries);
    var b := JoinWithGames(bob, input, rooms, entries);
    StartSharedSpin(a, b, spinsDraw, winnerDraw, now, receivedB, startA, startB);
    restA, restB, resultA, resultB := FinishBoth(a, b, endA, endB);
  }
}
