/** The arithmetic and the message filters of a spin: the winner and the
    angle the wheel stops at, the easing of the six-second animation, and the
    staleness rules for the broadcast `spinData` and `result` records.
    Angles are in degrees; the pointer sits at the top of the wheel, where
    slice 0 starts when the rotation is 0 (slices are drawn clockwise from
    -90 degrees). */
module Spin {
  import opened Draw
  import opened Snapshot

  /** `minGamesToSpin`. */
  const MinGamesToSpin: int := 2

  /** Animation length, milliseconds. */
  const SpinDuration: real := 6000.0

  /** A `spinData` record is replayed only within this many milliseconds. */
  const SpinValidity: int := 30000

  /** A `result` record is shown only within this many milliseconds. */
  const ResultValidity: int := 5000

  /** The record `spinWheel` broadcasts under `spinData`. */
  datatype SpinData = SpinData(targetRotation: real, winnerIndex: int, startedBy: string, timestamp: int)

  /** The record a finished animation writes under `result`. */
  datatype ResultRecord = ResultRecord(game: string, timestamp: int)

  /** `updateSpinButton`: the button is enabled when there are enough games
      and no spin is running; `spinWheel` acts under the same condition. An
      enabled wheel always has a slice to pick and never has just one. */
  predicate SpinEnabled(gameCount: int, spinning: bool): (b: bool)
    ensures b ==> !spinning && gameCount > 1
    ensures gameCount < MinGamesToSpin ==> !b
  {
    gameCount >= MinGamesToSpin && !spinning
  }

  // ---------------------------------------------------------------------
  // Where the wheel stops

  function Trunc(y: real): int {
    if y >= 0.0 then y.Floor else -((-y).Floor)
  }

  /** JavaScript's `x % 360`: the remainder takes the sign of `x`. */
  function Rem360(x: real): (r: real)
    ensures x >= 0.0 ==> 0.0 <= r < 360.0
    ensures x < 0.0 ==> -360.0 < r <= 0.0
  {
    x - 360.0 * (Trunc(x / 360.0) as real)
  }

  /** The angle `x` reduced to [0, 360). */
  function Mod360(x: real): (r: real)
    ensures 0.0 <= r < 360.0
  {
    x - 360.0 * ((x / 360.0).Floor as real)
  }

  /** Width of one slice when the wheel holds `n` games. */
  function SliceAngle(n: nat): real
    requires n > 0
  {
    360.0 / (n as real)
  }

  /** The index of the slice under the pointer when the wheel is rotated by
      `rotation` degrees clockwise. */
  function PointerSlice(rotation: real, n: nat): int
    requires n > 0
  {
    (Mod360(-rotation) / SliceAngle(n)).Floor
  }

  /** `targetAngle = 360 - (winnerIndex * sliceAngle + sliceAngle / 2)`:
      strictly between 0 and 360. */
  function TargetAngle(w: nat, n: nat): (a: real)
    requires w < n
    ensures 0.0 < a < 360.0
  {
    var s := SliceAngle(n);
    assert s * (n as real) == 360.0;
    assert (w as real) * s + s / 2.0 <= ((n - 1) as real) * s + s / 2.0 by {
      MulMonotone(w as real, (n - 1) as real, s);
    }
    360.0 - ((w as real) * s + s / 2.0)
  }

  /** `spins = 5 + Math.random() * 5`, as written: a number of turns from 5
      up to 10, not necessarily whole. */
  function SpinsAsWritten(r: real): (spins: real)
    ensures 0.0 <= r < 1.0 ==> 5.0 <= spins < 10.0
  {
    5.0 + r * 5.0
  }

  /** `targetRotation = spins * 360 + targetAngle`, as written: between 5
      and 11 turns when `spins` is between 5 and 10. */
  function TargetRotationAsWritten(spins: real, w: nat, n: nat): (rot: real)
    requires w < n
    ensures 5.0 <= spins < 10.0 ==> 1800.0 < rot < 3960.0
  {
    spins * 360.0 + TargetAngle(w, n)
  }

  /** The number of whole turns the comment "5-10 full rotations" asks for:
      `Math.floor(5 + Math.random() * 5)`, from 5 to 9. */
  function WholeTurns(r: real): (t: int)
    requires 0.0 <= r < 1.0
    ensures 5 <= t <= 9
  {
    (5.0 + r * 5.0).Floor
  }

  /** The corrected target rotation: whole turns plus the slice-centring
      angle. */
  function TargetRotation(r: real, w: nat, n: nat): (rot: real)
    requires 0.0 <= r < 1.0 && w < n
    ensures 1800.0 < rot < 3600.0
  {
    (WholeTurns(r) as real) * 360.0 + TargetAngle(w, n)
  }

  lemma Mod360Shift(x: real, k: int)
    ensures Mod360(x + 360.0 * (k as real)) == Mod360(x)
  {
    var y := x + 360.0 * (k as real);
    assert y / 360.0 == x / 360.0 + (k as real);
    assert (y / 360.0).Floor == (x / 360.0).Floor + k;
  }

  lemma Mod360OfSmall(x: real)
    requires 0.0 <= x < 360.0
    ensures Mod360(x) == x
  {
    assert (x / 360.0).Floor == 0;
  }

  /** Once `n`, `w` and the whole turns are fixed, the rotation that leaves
      the centre of slice `w` under the pointer: the pointer is at offset
      `w * slice + slice / 2` into the wheel. */
  lemma {:induction false} CentreUnderPointer(turns: int, w: nat, n: nat)
    requires w < n
    ensures Mod360(-((turns as real) * 360.0 + TargetAngle(w, n)))
         == (w as real) * SliceAngle(n) + SliceAngle(n) / 2.0
    ensures PointerSlice((turns as real) * 360.0 + TargetAngle(w, n), n) == w
  {
    var s := SliceAngle(n);
    var c := (w as real) * s + s / 2.0;
    var a := TargetAngle(w, n);
    assert a == 360.0 - c;
    assert -((turns as real) * 360.0 + a) == c + 360.0 * ((-turns - 1) as real);
    Mod360Shift(c, -turns - 1);
    Mod360OfSmall(c);
    assert c / s == (w as real) + 0.5;
  }

  /** With the correction, the wheel comes to rest (at `target % 360`) with
      the centre of the winner's slice under the pointer. */
  lemma PointerStopsOnWinner(r: real, w: nat, n: nat)
    requires 0.0 <= r < 1.0 && w < n
    ensures PointerSlice(TargetRotation(r, w, n), n) == w
    ensures PointerSlice(Rem360(TargetRotation(r, w, n)), n) == w
  {
    var t := WholeTurns(r);
    CentreUnderPointer(t, w, n);
    var rot := TargetRotation(r, w, n);
    var q := Trunc(rot / 360.0);
    assert Rem360(rot) == rot + 360.0 * ((-q) as real);
    assert -Rem360(rot) == -rot + 360.0 * (q as real);
    Mod360Shift(-rot, q);
  }

  /** As written, the fractional part of `spins` turns the wheel further:
      with two games, winner 0 and a draw of 0.5, the wheel rests at 90
      degrees with slice 1 under the pointer, yet slice 0 is announced. */
  lemma WheelStopsOffWinnerAsWritten()
    ensures Rem360(TargetRotationAsWritten(SpinsAsWritten(0.5), 0, 2)) == 90.0
    ensures PointerSlice(Rem360(TargetRotationAsWritten(SpinsAsWritten(0.5), 0, 2)), 2) == 1
  {
    assert TargetAngle(0, 2) == 270.0;
    assert TargetRotationAsWritten(SpinsAsWritten(0.5), 0, 2) == 2970.0;
    assert Trunc(2970.0 / 360.0) == 8;
    assert Mod360(-90.0) == 270.0 by {
      assert (-90.0 / 360.0).Floor == -1;
    }
    assert (270.0 / SliceAngle(2)).Floor == 1;
  }

  /** When a draw happens to give a whole number of turns, the rotation as
      written is the corrected one, so only then is the wheel sure to stop
      on the winner. */
  lemma AsWrittenAgreesOnWholeTurns(r: real, w: nat, n: nat)
    requires 0.0 <= r < 1.0 && w < n
    requires (SpinsAsWritten(r).Floor as real) == SpinsAsWritten(r)
    ensures TargetRotationAsWritten(SpinsAsWritten(r), w, n) == TargetRotation(r, w, n)
    ensures PointerSlice(Rem360(TargetRotationAsWritten(SpinsAsWritten(r), w, n)), n) == w
  {
    PointerStopsOnWinner(r, w, n);
  }

  // ---------------------------------------------------------------------
  // The animation

  /** `Math.min(elapsed / duration, 1)`. */
  function Progress(elapsed: real): (p: real)
    ensures p <= 1.0
    ensures elapsed >= 0.0 ==> p >= 0.0
    ensures p == 1.0 <==> elapsed >= SpinDuration
  {
    if elapsed / SpinDuration < 1.0 then elapsed / SpinDuration else 1.0
  }

  /** Ease-out cubic: `1 - Math.pow(1 - progress, 3)`. On [0, 1] it is
      never behind linear progress and never beyond the end. */
  function Eased(p: real): (e: real)
    ensures 0.0 <= p <= 1.0 ==> p <= e <= 1.0
  {
    var u := 1.0 - p;
    if 0.0 <= p <= 1.0 then
      assert u * u <= u by { MulMonotone(u, 1.0, u); }
      assert u * u * u <= u by { MulMonotone(u * u, 1.0, u); }
      assert 0.0 <= u * u * u by { MulMonotone(0.0, u * u, u); }
      1.0 - u * u * u
    else
      1.0 - u * u * u
  }

  lemma CubeMonotone(a: real, b: real)
    requires 0.0 <= b <= a
    ensures b * b * b <= a * a * a
  {
    MulMonotone(b, a, b);
    assert b * b <= a * b;
    if a > 0.0 {
      MulMonotone(b, a, a);
      assert a * b <= a * a;
      if b > 0.0 {
        MulMonotone(b * b, a * a, b);
      }
      MulMonotone(b, a, a * a);
    }
  }

  /** The easing starts at 0, ends at 1, stays in [0, 1], never goes back,
      and is never behind a linear motion. */
  lemma EasedShape(p: real, q: real)
    requires 0.0 <= p <= q <= 1.0
    ensures Eased(0.0) == 0.0 && Eased(1.0) == 1.0
    ensures 0.0 <= Eased(p) <= Eased(q) <= 1.0
    ensures Eased(p) >= p
  {
    var u, v := 1.0 - p, 1.0 - q;
    assert Eased(p) == 1.0 - u * u * u && Eased(q) == 1.0 - v * v * v;
    CubeMonotone(u, v);
    CubeMonotone(1.0, u);
    CubeMonotone(v, 0.0);
    assert u * u <= u by { MulMonotone(u, 1.0, u); }
    assert u * u * u <= u by { MulMonotone(u * u, 1.0, u); }
  }

  /** The rotation drawn in a frame: `startRotation + totalRotation * eased`.
      It starts at the start rotation, ends at start plus total, and for a
      forward spin stays between the two. */
  function FrameRotation(start: real, total: real, p: real): (rot: real)
    ensures p == 0.0 ==> rot == start
    ensures p == 1.0 ==> rot == start + total
    ensures 0.0 <= p <= 1.0 && total >= 0.0 ==> start <= rot <= start + total
  {
    var e := Eased(p);
    if 0.0 <= p <= 1.0 && total >= 0.0 then
      assert 0.0 <= total * e <= total * 1.0 by {
        MulMonotone(0.0, e, total);
        MulMonotone(e, 1.0, total);
      }
      start + total * e
    else
      start + total * e
  }

  /** `totalRotation = targetRotation - (startRotation % 360)`: from a
      non-negative start, less than one turn short of the target and never
      beyond it. */
  function TotalRotation(start: real, target: real): (total: real)
    ensures start >= 0.0 ==> target - 360.0 < total <= target
  {
    target - Rem360(start)
  }

  /** The last frame shows the target up to whole turns, so snapping the
      rotation to `target % 360` on completion does not move the wheel as
      seen: every client ends at the same angle, whatever rotation it
      started from. */
  lemma SnapIsInvisible(start: real, target: real)
    ensures FrameRotation(start, TotalRotation(start, target), 1.0) == target + 360.0 * (Trunc(start / 360.0) as real)
    ensures Mod360(FrameRotation(start, TotalRotation(start, target), 1.0))
         == Mod360(Rem360(target))
  {
    Mod360Shift(target, Trunc(start / 360.0));
    var q := Trunc(target / 360.0);
    assert Rem360(target) == target + 360.0 * ((-q) as real);
    Mod360Shift(target, -q);
  }

  // ---------------------------------------------------------------------
  // Filters on incoming records

  /** The `spinData` listener replays an announcement only when it exists,
      is younger than 30 s, this client is not spinning, and someone else
      started it: a client never replays its own spin, never interrupts a
      running one, and never replays a stale one. */
  predicate ShouldReplay(data: Option<SpinData>, now: int, spinning: bool, userId: string): (b: bool)
    ensures b ==> data.Some? && data.value.startedBy != userId
    ensures spinning ==> !b
    ensures data.Some? && data.value.timestamp <= now - SpinValidity ==> !b
  {
    data.Some? && data.value.timestamp > now - SpinValidity
    && !spinning && data.value.startedBy != userId
  }

  /** A stale announcement stays stale: once it is refused for age it is
      refused at every later time. */
  lemma StaleStaysStale(data: SpinData, now: int, later: int, spinning: bool, userId: string)
    requires data.timestamp <= now - SpinValidity && now <= later
    ensures !ShouldReplay(Some(data), later, spinning, userId)
  {
  }

  /** The `result` listener: a result younger than 5 s is shown, after a
      100 ms delay, unless a spin is running by then. A result 5 s old or
      older, or one arriving while a spin runs, is never shown; what is shown
      is the recorded game. */
  function ResultToShow(result: Option<ResultRecord>, now: int, spinningAfterDelay: bool): (shown: Option<string>)
    ensures result.Some? && result.value.timestamp <= now - ResultValidity ==> shown.None?
    ensures spinningAfterDelay ==> shown.None?
    ensures result.None? ==> shown.None?
    ensures shown.Some? <==>
      result.Some? && result.value.timestamp > now - ResultValidity && !spinningAfterDelay
    ensures shown.Some? ==> shown.value == result.value.game
  {
    if result.Some? && result.value.timestamp > now - ResultValidity && !spinningAfterDelay
    then Some(result.value.game)
    else None
  }

  /** A result too old to show stays hidden at every later time. */
  lemma StaleResultStaysHidden(result: ResultRecord, now: int, later: int, spinning: bool)
    requires result.timestamp <= now - ResultValidity && now <= later
    ensures ResultToShow(Some(result), later, spinning).None?
  {
  }
}
