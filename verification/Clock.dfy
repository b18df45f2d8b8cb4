/** Conservative host-time bounds of a local time, from calibration brackets. Times are exact:
    local readings are milliseconds, host readings whole nanoseconds. */
module Clock {
  import opened Basics

  datatype Calibration = Calibration(localMs: real, before: int, after: int)

  function Ceil(x: real): int { -(-x).Floor }

  function Elapsed(localMs: real, c: Calibration): real { localMs * 1000000.0 - c.localMs * 1000000.0 }

  function Lower(localMs: real, c: Calibration): int { c.before + Elapsed(localMs, c).Floor }

  function Upper(localMs: real, c: Calibration): int { c.after + Ceil(Elapsed(localMs, c)) }

  /** The largest lower bound. */
  function Floor(localMs: real, cs: seq<Calibration>): int
    requires cs != []
  {
    var n := |cs| - 1;
    if n == 0 then Lower(localMs, cs[0]) else Max(Floor(localMs, cs[..n]), Lower(localMs, cs[n]))
  }

  /** The smallest upper bound. */
  function Ceiling(localMs: real, cs: seq<Calibration>): int
    requires cs != []
  {
    var n := |cs| - 1;
    if n == 0 then Upper(localMs, cs[0]) else Min(Ceiling(localMs, cs[..n]), Upper(localMs, cs[n]))
  }

  predicate Ordered(cs: seq<Calibration>) { forall i :: 0 <= i < |cs| ==> cs[i].before <= cs[i].after }

  predicate Accepted(localMs: real, cs: seq<Calibration>) {
    cs != [] && Ordered(cs) && 0 <= Floor(localMs, cs) <= Ceiling(localMs, cs)
  }

  // ---- clocks ----

  /** A clock that runs at the host's rate, `offset` nanoseconds ahead of the local one, passes
      through every bracket. */
  predicate Consistent(offset: real, cs: seq<Calibration>) {
    forall i :: 0 <= i < |cs| ==> cs[i].before as real <= cs[i].localMs * 1000000.0 + offset <= cs[i].after as real
  }

  function HostTime(localMs: real, offset: real): real { localMs * 1000000.0 + offset }

  lemma {:induction false} FloorIff(localMs: real, cs: seq<Calibration>, n: int)
    requires cs != []
    ensures n <= Floor(localMs, cs) <==> exists i :: 0 <= i < |cs| && n <= Lower(localMs, cs[i])
    decreases |cs|
  {
    var k := |cs| - 1;
    if k > 0 {
      FloorIff(localMs, cs[..k], n);
      if i :| 0 <= i < k && n <= Lower(localMs, cs[..k][i]) {
        assert cs[i] == cs[..k][i];
      }
      if i :| 0 <= i < k && n <= Lower(localMs, cs[i]) {
        assert cs[i] == cs[..k][i];
      }
    }
  }

  lemma {:induction false} CeilingIff(localMs: real, cs: seq<Calibration>, n: int)
    requires cs != []
    ensures Ceiling(localMs, cs) <= n <==> exists i :: 0 <= i < |cs| && Upper(localMs, cs[i]) <= n
    decreases |cs|
  {
    var k := |cs| - 1;
    if k > 0 {
      CeilingIff(localMs, cs[..k], n);
      if i :| 0 <= i < k && Upper(localMs, cs[..k][i]) <= n {
        assert cs[i] == cs[..k][i];
      }
      if i :| 0 <= i < k && Upper(localMs, cs[i]) <= n {
        assert cs[i] == cs[..k][i];
      }
    }
  }

  /** The true host time lies in the interval. */
  lemma BoundsSound(localMs: real, cs: seq<Calibration>, offset: real)
    requires cs != [] && Consistent(offset, cs)
    ensures Floor(localMs, cs) as real <= HostTime(localMs, offset) <= Ceiling(localMs, cs) as real
    ensures Ordered(cs) && Floor(localMs, cs) <= Ceiling(localMs, cs)
  {
    FloorIff(localMs, cs, Floor(localMs, cs));
    var i :| 0 <= i < |cs| && Floor(localMs, cs) <= Lower(localMs, cs[i]);
    CeilingIff(localMs, cs, Ceiling(localMs, cs));
    var j :| 0 <= j < |cs| && Upper(localMs, cs[j]) <= Ceiling(localMs, cs);
    assert Lower(localMs, cs[i]) as real <= HostTime(localMs, offset);
    assert HostTime(localMs, offset) <= Upper(localMs, cs[j]) as real;
  }

  /** Brackets are accepted exactly when there is one, none is reversed, no lower bound passes an
      upper one, and some lower bound is not negative. */
  lemma AcceptedIff(localMs: real, cs: seq<Calibration>)
    ensures Accepted(localMs, cs) <==>
              && (exists i :: 0 <= i < |cs| && Lower(localMs, cs[i]) >= 0)
              && (forall i :: 0 <= i < |cs| ==> cs[i].before <= cs[i].after)
              && forall i, j :: 0 <= i < |cs| && 0 <= j < |cs| ==> Lower(localMs, cs[i]) <= Upper(localMs, cs[j])
  {
    if cs != [] {
      FloorIff(localMs, cs, 0);
      forall i, j | 0 <= i < |cs| && 0 <= j < |cs|
        ensures Lower(localMs, cs[i]) <= Floor(localMs, cs) && Ceiling(localMs, cs) <= Upper(localMs, cs[j])
      {
        FloorIff(localMs, cs, Lower(localMs, cs[i]));
        CeilingIff(localMs, cs, Upper(localMs, cs[j]));
      }
      FloorIff(localMs, cs, Floor(localMs, cs));
      CeilingIff(localMs, cs, Ceiling(localMs, cs));
    }
  }

  /** A consistent clock is refused exactly when every lower bound is negative. */
  lemma RejectedIff(localMs: real, cs: seq<Calibration>, offset: real)
    requires cs != [] && Consistent(offset, cs)
    ensures !Accepted(localMs, cs) <==> forall i :: 0 <= i < |cs| ==> Lower(localMs, cs[i]) < 0
  {
    BoundsSound(localMs, cs, offset);
    FloorIff(localMs, cs, 0);
  }

  /** That can happen at a host time that is not negative. */
  lemma NonNegativeTimeRejected()
    ensures
      var cs := [Calibration(1.0, 999999, 1000001)];
      Consistent(0.0, cs) && HostTime(0.0, 0.0) == 0.0 && !Accepted(0.0, cs)
  {
    var cs := [Calibration(1.0, 999999, 1000001)];
    assert Elapsed(0.0, cs[0]) == -1000000.0;
    assert Lower(0.0, cs[0]) == -1;
  }

  /** Further calibrations only narrow the interval, wherever they are added. */
  lemma MoreNarrows(localMs: real, cs: seq<Calibration>, more: seq<Calibration>)
    requires cs != [] && forall i :: 0 <= i < |cs| ==> cs[i] in more
    ensures more != [] && Floor(localMs, cs) <= Floor(localMs, more) && Ceiling(localMs, more) <= Ceiling(localMs, cs)
  {
    assert cs[0] in more;
    FloorIff(localMs, cs, Floor(localMs, cs));
    var i :| 0 <= i < |cs| && Floor(localMs, cs) <= Lower(localMs, cs[i]);
    var a :| 0 <= a < |more| && more[a] == cs[i];
    FloorIff(localMs, more, Floor(localMs, cs));
    CeilingIff(localMs, cs, Ceiling(localMs, cs));
    var j :| 0 <= j < |cs| && Upper(localMs, cs[j]) <= Ceiling(localMs, cs);
    var b :| 0 <= b < |more| && more[b] == cs[j];
    CeilingIff(localMs, more, Ceiling(localMs, cs));
  }

  // ---- how tight the interval is ----

  /** The least offset every bracket allows. */
  function Least(cs: seq<Calibration>): (r: real)
    requires cs != []
    ensures forall i :: 0 <= i < |cs| ==> cs[i].before as real - cs[i].localMs * 1000000.0 <= r
    ensures exists i :: 0 <= i < |cs| && cs[i].before as real - cs[i].localMs * 1000000.0 == r
  {
    var n := |cs| - 1;
    var own := cs[n].before as real - cs[n].localMs * 1000000.0;
    if n == 0 then own
    else
      var rest := Least(cs[..n]);
      assert forall i :: 0 <= i < n ==> cs[..n][i] == cs[i];
      if rest < own then own else rest
  }

  function Greatest(cs: seq<Calibration>): (r: real)
    requires cs != []
    ensures forall i :: 0 <= i < |cs| ==> r <= cs[i].after as real - cs[i].localMs * 1000000.0
    ensures exists i :: 0 <= i < |cs| && cs[i].after as real - cs[i].localMs * 1000000.0 == r
  {
    var n := |cs| - 1;
    var own := cs[n].after as real - cs[n].localMs * 1000000.0;
    if n == 0 then own
    else
      var rest := Greatest(cs[..n]);
      assert forall i :: 0 <= i < n ==> cs[..n][i] == cs[i];
      if own < rest then own else rest
  }

  /** Every offset between the two extremes is consistent, and no other. */
  lemma ConsistentIff(cs: seq<Calibration>, offset: real)
    requires cs != []
    ensures Consistent(offset, cs) <==> Least(cs) <= offset <= Greatest(cs)
  {
  }

  /** Among whole nanoseconds the bounds cannot be improved: they are the last before and the
      first after every possible host time. */
  lemma BoundsTight(localMs: real, cs: seq<Calibration>, n: int)
    requires cs != [] && Consistent(Least(cs), cs)
    ensures n <= Floor(localMs, cs) <==>
              forall offset :: Consistent(offset, cs) ==> n as real <= HostTime(localMs, offset)
    ensures Ceiling(localMs, cs) <= n <==>
              forall offset :: Consistent(offset, cs) ==> HostTime(localMs, offset) <= n as real
  {
    FloorIff(localMs, cs, n);
    CeilingIff(localMs, cs, n);
    ConsistentIff(cs, Least(cs));
    ConsistentIff(cs, Greatest(cs));
    forall offset | Consistent(offset, cs)
      ensures Floor(localMs, cs) as real <= HostTime(localMs, offset) <= Ceiling(localMs, cs) as real
    {
      BoundsSound(localMs, cs, offset);
    }
    var i :| 0 <= i < |cs| && cs[i].before as real - cs[i].localMs * 1000000.0 == Least(cs);
    assert HostTime(localMs, Least(cs)) == cs[i].before as real + Elapsed(localMs, cs[i]);
    assert n as real <= HostTime(localMs, Least(cs)) <==> n <= Lower(localMs, cs[i]);
    var j :| 0 <= j < |cs| && cs[j].after as real - cs[j].localMs * 1000000.0 == Greatest(cs);
    assert HostTime(localMs, Greatest(cs)) == cs[j].after as real + Elapsed(localMs, cs[j]);
    assert HostTime(localMs, Greatest(cs)) <= n as real <==> Upper(localMs, cs[j]) <= n;
  }

  lemma FloorShift(n: int, x: real)
    ensures (n as real + x).Floor == n + x.Floor && Ceil(n as real + x) == n + Ceil(x)
  {
  }

  /** The lower bound is the earliest possible host time, rounded down. */
  lemma FloorExact(localMs: real, cs: seq<Calibration>)
    requires cs != []
    ensures Floor(localMs, cs) == HostTime(localMs, Least(cs)).Floor
  {
    hide Floor, Least;
    var earliest := HostTime(localMs, Least(cs));
    var i :| 0 <= i < |cs| && cs[i].before as real - cs[i].localMs * 1000000.0 == Least(cs);
    assert earliest == cs[i].before as real + Elapsed(localMs, cs[i]);
    FloorShift(cs[i].before, Elapsed(localMs, cs[i]));
    FloorIff(localMs, cs, Lower(localMs, cs[i]));
    FloorIff(localMs, cs, Floor(localMs, cs));
    var j :| 0 <= j < |cs| && Floor(localMs, cs) <= Lower(localMs, cs[j]);
    FloorShift(cs[j].before, Elapsed(localMs, cs[j]));
    assert cs[j].before as real + Elapsed(localMs, cs[j]) <= earliest;
  }

  /** The upper bound is the latest possible host time, rounded up. */
  lemma CeilingExact(localMs: real, cs: seq<Calibration>)
    requires cs != []
    ensures Ceiling(localMs, cs) == Ceil(HostTime(localMs, Greatest(cs)))
  {
    hide Ceiling, Greatest;
    var latest := HostTime(localMs, Greatest(cs));
    var i :| 0 <= i < |cs| && cs[i].after as real - cs[i].localMs * 1000000.0 == Greatest(cs);
    assert latest == cs[i].after as real + Elapsed(localMs, cs[i]);
    FloorShift(cs[i].after, Elapsed(localMs, cs[i]));
    CeilingIff(localMs, cs, Upper(localMs, cs[i]));
    CeilingIff(localMs, cs, Ceiling(localMs, cs));
    var j :| 0 <= j < |cs| && Upper(localMs, cs[j]) <= Ceiling(localMs, cs);
    FloorShift(cs[j].after, Elapsed(localMs, cs[j]));
    assert latest <= cs[j].after as real + Elapsed(localMs, cs[j]);
  }

  /** Exactly which disagreements between brackets the rounding lets through, for all readings:
      those where the earliest time the brackets demand is less than a nanosecond past the
      latest one they allow, rounded up. */
  lemma DriftIff(localMs: real, cs: seq<Calibration>)
    requires cs != []
    ensures Floor(localMs, cs) <= Ceiling(localMs, cs) <==>
              HostTime(localMs, Least(cs)) < Ceil(HostTime(localMs, Greatest(cs))) as real + 1.0
  {
    hide Floor, Ceiling, Least, Greatest;
    FloorExact(localMs, cs);
    CeilingExact(localMs, cs);
  }

  /** So a disagreement of two nanoseconds or more is always refused, and none is refused when
      some clock fits. */
  lemma DriftBelowTwo(localMs: real, cs: seq<Calibration>)
    requires cs != []
    ensures Floor(localMs, cs) <= Ceiling(localMs, cs) ==> Least(cs) - Greatest(cs) < 2.0
    ensures Least(cs) <= Greatest(cs) <==> exists offset :: Consistent(offset, cs)
    ensures Least(cs) <= Greatest(cs) ==> Floor(localMs, cs) <= Ceiling(localMs, cs)
  {
    hide Floor, Ceiling, Least, Greatest, Consistent;
    DriftIff(localMs, cs);
    ConsistentIff(cs, Least(cs));
    if offset :| Consistent(offset, cs) {
      ConsistentIff(cs, offset);
    }
  }

  /** Almost two nanoseconds can be hidden: brackets that disagree by 1.8 are accepted. */
  lemma DriftHidden()
    ensures
      var cs := [Calibration(0.0000001, 1, 1), Calibration(0.0000009, 0, 0)];
      Accepted(0.000001, cs) && Least(cs) - Greatest(cs) == 1.8 && forall offset :: !Consistent(offset, cs)
  {
    hide Floor, Ceiling, Consistent, Least, Greatest;
    var a, b := Calibration(0.0000001, 1, 1), Calibration(0.0000009, 0, 0);
    var cs := [a, b];
    PairExtremes(a, b);
    FloorExact(0.000001, cs);
    CeilingExact(0.000001, cs);
    AlmostTwo(HostTime(0.000001, Least(cs)), HostTime(0.000001, Greatest(cs)));
    forall offset ensures !Consistent(offset, cs) {
      ConsistentIff(cs, offset);
    }
  }

  lemma AlmostTwo(earliest: real, latest: real)
    requires earliest == 1.9 && latest == 0.1
    ensures earliest.Floor == 1 == Ceil(latest)
  {
  }

  lemma PairExtremes(a: Calibration, b: Calibration)
    ensures
      var (low, high) := (a.before as real - a.localMs * 1000000.0, a.after as real - a.localMs * 1000000.0);
      var (low', high') := (b.before as real - b.localMs * 1000000.0, b.after as real - b.localMs * 1000000.0);
      && Least([a, b]) == (if low < low' then low' else low)
      && Greatest([a, b]) == (if high' < high then high' else high)
  {
    assert [a, b][..1] == [a];
  }

  // ---- fixed slots ----

  datatype Membership = Inside | Outside

  function SlotMembership(lower: int, upper: int, start: int, end: int): Result<Membership> {
    if !(lower <= upper && start < end) then Err("native slot invalid")
    else if start <= lower && upper < end then Ok(Inside)
    else if upper < start || lower >= end then Ok(Outside)
    else Err("native clock uncertainty crosses fixed slot boundary")
  }

  predicate InSlot(t: real, start: int, end: int) { start as real <= t < end as real }

  ghost predicate AllIn(lower: int, upper: int, start: int, end: int) {
    forall t :: lower as real <= t <= upper as real ==> InSlot(t, start, end)
  }

  ghost predicate AllOut(lower: int, upper: int, start: int, end: int) {
    forall t :: lower as real <= t <= upper as real ==> !InSlot(t, start, end)
  }

  /** An answer is given exactly when it holds of every time in the interval. */
  lemma MembershipIff(lower: int, upper: int, start: int, end: int)
    requires lower <= upper && start < end
    ensures SlotMembership(lower, upper, start, end) == Ok(Inside) <==> AllIn(lower, upper, start, end)
    ensures SlotMembership(lower, upper, start, end) == Ok(Outside) <==> AllOut(lower, upper, start, end)
  {
    assert InSlot(lower as real, start, end) <==> start <= lower < end;
    assert InSlot(upper as real, start, end) <==> start <= upper < end;
    assert InSlot(start as real, start, end);
    if AllOut(lower, upper, start, end) {
      assert !(lower as real <= start as real <= upper as real);
    }
  }

  /** For any consistent clock the answer is right about the true host time. */
  lemma MembershipSound(localMs: real, cs: seq<Calibration>, offset: real, start: int, end: int)
    requires cs != [] && Consistent(offset, cs)
    ensures
      var m := SlotMembership(Floor(localMs, cs), Ceiling(localMs, cs), start, end);
      && (m == Ok(Inside) ==> InSlot(HostTime(localMs, offset), start, end))
      && (m == Ok(Outside) ==> !InSlot(HostTime(localMs, offset), start, end))
  {
    BoundsSound(localMs, cs, offset);
  }

  /** The loop over the calibrations. */
  method ClockBounds(localMs: real, cs: seq<Calibration>) returns (r: Result<(int, int)>)
    ensures r.Ok? <==> Accepted(localMs, cs)
    ensures r.Ok? ==> r.value == (Floor(localMs, cs), Ceiling(localMs, cs))
  {
    if cs == [] {
      return Err("native clock calibration missing");
    }
    var lower, upper := 0, 0;
    for k := 0 to |cs|
      invariant forall i :: 0 <= i < k ==> cs[i].before <= cs[i].after
      invariant k > 0 ==> lower == Floor(localMs, cs[..k]) && upper == Ceiling(localMs, cs[..k])
    {
      var c := cs[k];
      if c.before > c.after {
        return Err("native calibration bracket reversed");
      }
      assert cs[..k + 1][..k] == cs[..k];
      lower := if k == 0 then Lower(localMs, c) else Max(lower, Lower(localMs, c));
      upper := if k == 0 then Upper(localMs, c) else Min(upper, Upper(localMs, c));
    }
    assert cs[..|cs|] == cs;
    if !(0 <= lower <= upper) {
      return Err("native clock bracket drift/disjoint");
    }
    return Ok((lower, upper));
  }
}
