/** Which lyric line is sung: timed lines, estimated times of plain lines, and the binary search over them (lyrics.js).

    Seconds are reals here. A position or duration that is not a number or infinite is `NotFinite`, as the source tests
    for it; a time may be infinite, when plain lyrics belong to a track whose duration is unknown, and such a line is
    after every position. Lines are known by their times alone. */
module LyricTimes {
  /** A time in seconds; plain lyrics of a track of unknown length have infinite times. */
  datatype Time = At(seconds: real) | Infinite

  /** Not a number and the two infinities are not finite. */
  datatype Position = Finite(seconds: real) | NotFinite

  predicate NotAfter(time: Time, position: real) {
    time.At? && time.seconds <= position
  }

  predicate Before(a: Time, b: Time) {
    b.Infinite? || (a.At? && a.seconds <= b.seconds)
  }

  predicate Sorted(times: seq<Time>) {
    forall i, j :: 0 <= i < j < |times| ==> Before(times[i], times[j])
  }

  /** The last line that has begun, or -1. */
  method ActiveLyricIndex(times: seq<Time>, position: Position) returns (index: int)
    requires Sorted(times)
    ensures -1 <= index < |times|
    ensures position.NotFinite? ==> index == -1
    ensures position.Finite? ==>
              forall k :: 0 <= k < |times| ==> (times[k].At? && times[k].seconds <= position.seconds <==> k <= index)
  {
    if position.NotFinite? {
      return -1;
    }
    var low, high := 0, |times|;
    while low < high
      invariant 0 <= low <= high <= |times|
      invariant forall k :: 0 <= k < low ==> NotAfter(times[k], position.seconds)
      invariant forall k :: high <= k < |times| ==> !NotAfter(times[k], position.seconds)
    {
      var middle := (low + high) / 2;
      if NotAfter(times[middle], position.seconds) {
        low := middle + 1;
      } else {
        high := middle;
      }
    }
    index := low - 1;
  }

  /** Row `i` of `rows` rows that share the duration evenly. */
  function Share(i: nat, rows: nat, seconds: real): real
    requires rows > 0
  {
    (i as real) * seconds / (rows as real)
  }

  /** Plain rows share the duration; without a positive duration every time is infinite. */
  function Estimated(rows: nat, duration: Position): (times: seq<Time>)
    ensures |times| == rows
  {
    seq(rows, i requires 0 <= i < rows =>
      if duration.Finite? && duration.seconds > 0.0 then At(Share(i, rows, duration.seconds)) else Infinite)
  }

  lemma ShareRises(i: nat, j: nat, rows: nat, seconds: real)
    requires i < j && rows > 0 && seconds > 0.0
    ensures Share(i, rows, seconds) < Share(j, rows, seconds)
  {
    var a, b := (i as real) * seconds, (j as real) * seconds;
    assert b - a == ((j - i) as real) * seconds > 0.0;
    assert b / (rows as real) - a / (rows as real) == (b - a) / (rows as real);
  }

  lemma ShareIs(i: nat, rows: nat, seconds: real)
    requires rows > 0
    ensures Share(i, rows, seconds) * (rows as real) == (i as real) * seconds
  {
  }

  lemma ShareEnds(rows: nat, seconds: real)
    requires rows > 0
    ensures Share(0, rows, seconds) == 0.0 && Share(rows, rows, seconds) == seconds
  {
  }

  /** So estimated times can be searched: they rise evenly from zero and stay below the duration; of a track of unknown
      length no line is ever active. */
  lemma EstimatedOrder(rows: nat, duration: Position)
    ensures Sorted(Estimated(rows, duration))
    ensures duration.Finite? && duration.seconds > 0.0 ==>
              forall k :: 0 <= k < rows ==>
                var time := Estimated(rows, duration)[k];
                && time.At? && (k == 0 ==> time.seconds == 0.0) && time.seconds < duration.seconds
                && time.seconds * (rows as real) == (k as real) * duration.seconds
    ensures duration.NotFinite? || duration.seconds <= 0.0 ==>
              forall k, position: real :: 0 <= k < rows ==> !NotAfter(Estimated(rows, duration)[k], position)
  {
    if duration.Finite? && duration.seconds > 0.0 && rows > 0 {
      forall i, j | 0 <= i < j < rows ensures Before(Estimated(rows, duration)[i], Estimated(rows, duration)[j]) {
        ShareRises(i, j, rows, duration.seconds);
      }
      ShareEnds(rows, duration.seconds);
      forall k | 0 <= k < rows
        ensures Share(k, rows, duration.seconds) < duration.seconds
        ensures Share(k, rows, duration.seconds) * (rows as real) == (k as real) * duration.seconds
      {
        ShareRises(k, rows, rows, duration.seconds);
        ShareIs(k, rows, duration.seconds);
      }
    }
  }
}
