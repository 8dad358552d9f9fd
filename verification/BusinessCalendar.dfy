/**
 Business-day walks.  A date is its proleptic Gregorian ordinal (day 1 is a Monday).  The walks end
 because the holiday set is finite, count business days exactly, and undo each other from any
 business day.
 */
module BusinessCalendar {
  import opened SetFacts

  predicate IsBusinessDay(holidays: set<int>, d: int) {
    (d + 6) % 7 < 5 && d !in holidays
  }

  /** A week starts on a Monday, as day 1 of year 1 did; its first five days are business days unless they are holidays. */
  lemma WeekDay(holidays: set<int>, monday: int, k: nat)
    requires monday % 7 == 1 && k < 7
    ensures IsBusinessDay(holidays, monday + k) <==> k < 5 && monday + k !in holidays
    ensures IsBusinessDay({}, 1)
  {
    assert (monday + k + 6) % 7 == k;
  }

  /** No business day strictly between. */
  ghost predicate Gap(holidays: set<int>, lo: int, hi: int) {
    forall k :: lo < k < hi ==> !IsBusinessDay(holidays, k)
  }

  lemma {:induction false} FiniteBound(s: set<int>) returns (m: int)
    ensures m > 0 && forall x :: x in s ==> -m < x < m
    decreases |s|
  {
    HasElement(s);
    if s == {} { return 1; }
    var x :| x in s;
    m := FiniteBound(s - {x});
    var size := if x < 0 then -x + 1 else x + 1;
    if m < size { m := size; }
    assert forall y :: y in s ==> y == x || y in s - {x};
  }

  /** Past the last holiday the next Monday is open; before the first one the previous Monday was. */
  lemma OpenDays(holidays: set<int>, d: int) returns (after: int, before: int)
    ensures before < d < after && IsBusinessDay(holidays, after) && IsBusinessDay(holidays, before)
  {
    var m := FiniteBound(holidays);
    var top := if d < m then m else d;
    var bottom := if d > -m then -m else d;
    after := top + 7 - (top + 6) % 7;
    before := bottom - 7 - (bottom + 6) % 7;
  }

  method NextBusinessDay(holidays: set<int>, date: int) returns (d: int)
    ensures d > date && IsBusinessDay(holidays, d) && Gap(holidays, date, d)
  {
    ghost var after, before := OpenDays(holidays, date);
    d := date + 1;
    while !IsBusinessDay(holidays, d)
      invariant date < d <= after && Gap(holidays, date, d)
      decreases after - d
    {
      d := d + 1;
    }
  }

  method PreviousBusinessDay(holidays: set<int>, date: int) returns (d: int)
    ensures d < date && IsBusinessDay(holidays, d) && Gap(holidays, d, date)
  {
    ghost var after, before := OpenDays(holidays, date);
    d := date - 1;
    while !IsBusinessDay(holidays, d)
      invariant before <= d < date && Gap(holidays, d, date)
      decreases d - before
    {
      d := d - 1;
    }
  }

  // ----- walks ----------------------------------------------------------------

  /** Business days in `(lo, hi]`. */
  function Count(holidays: set<int>, lo: int, hi: int): nat
    decreases hi - lo
  {
    if hi <= lo then 0 else Count(holidays, lo, hi - 1) + if IsBusinessDay(holidays, hi) then 1 else 0
  }

  lemma {:induction false} CountJoin(holidays: set<int>, a: int, b: int, c: int)
    requires a <= b <= c
    ensures Count(holidays, a, c) == Count(holidays, a, b) + Count(holidays, b, c)
    decreases c - b
  {
    if b < c { CountJoin(holidays, a, b, c - 1); }
  }

  lemma {:induction false} CountGap(holidays: set<int>, lo: int, hi: int)
    requires lo < hi && Gap(holidays, lo, hi)
    ensures Count(holidays, lo, hi - 1) == 0
    decreases hi - lo
  {
    if lo < hi - 1 {
      assert Gap(holidays, lo, hi - 1);
      CountGap(holidays, lo, hi - 1);
    }
  }

  /** Counts determine business days: one of them with as many behind it as another is that other. */
  lemma CountPins(holidays: set<int>, from: int, a: int, b: int)
    requires from <= a && from <= b && IsBusinessDay(holidays, a) && IsBusinessDay(holidays, b)
    requires Count(holidays, from, a) == Count(holidays, from, b)
    ensures a == b
  {
    if a < b {
      CountJoin(holidays, from, a, b);
    } else if b < a {
      CountJoin(holidays, from, b, a);
    }
  }

  /** `None` for a negative lag; otherwise the day exactly `n` business days on. */
  method AddBusinessDays(holidays: set<int>, date: int, n: int) returns (ok: bool, d: int)
    ensures ok <==> n >= 0
    ensures ok ==> d >= date && Count(holidays, date, d) == n && (n == 0 ==> d == date) && (n > 0 ==> IsBusinessDay(holidays, d))
  {
    d := date;
    if n < 0 { return false, d; }
    for i := 0 to n
      invariant d >= date && Count(holidays, date, d) == i && (i == 0 ==> d == date) && (i > 0 ==> IsBusinessDay(holidays, d))
    {
      var next := NextBusinessDay(holidays, d);
      CountGap(holidays, d, next);
      CountJoin(holidays, date, d, next);
      d := next;
    }
    return true, d;
  }

  /** `None` for a negative lag; otherwise the day with exactly `n` business days from it up to the day before `date`. */
  method SubtractBusinessDays(holidays: set<int>, date: int, n: int) returns (ok: bool, d: int)
    ensures ok <==> n >= 0
    ensures ok ==> d <= date && Count(holidays, d - 1, date - 1) == n && (n == 0 ==> d == date) && (n > 0 ==> IsBusinessDay(holidays, d))
  {
    d := date;
    if n < 0 { return false, d; }
    for i := 0 to n
      invariant d <= date && Count(holidays, d - 1, date - 1) == i && (i == 0 ==> d == date) && (i > 0 ==> IsBusinessDay(holidays, d))
    {
      var previous := PreviousBusinessDay(holidays, d);
      CountGap(holidays, previous, d);
      CountJoin(holidays, previous - 1, previous, d - 1);
      CountJoin(holidays, previous - 1, d - 1, date - 1);
      d := previous;
    }
    return true, d;
  }

  /** Where a lag out and back lands: on the date itself if it is open, else on the open day before it. */
  lemma {:induction false} ThereAndBack(holidays: set<int>, date: int, n: nat, there: int, back: int)
    requires n > 0 && there >= date && Count(holidays, date, there) == n && IsBusinessDay(holidays, there)
    requires back <= there && Count(holidays, back - 1, there - 1) == n && IsBusinessDay(holidays, back)
    ensures IsBusinessDay(holidays, date) <==> back == date
    ensures back <= date && Gap(holidays, back, date)
    ensures IsBusinessDay(holidays, date) || back < date
  {
    // Both intervals hold n business days and `there` is the last of the first one.
    CountJoin(holidays, date, there - 1, there);
    assert Count(holidays, date, there - 1) == n - 1;
    if back > date {
      CountJoin(holidays, date, back - 1, there - 1);
    } else {
      CountJoin(holidays, back - 1, date, there - 1);
      assert Count(holidays, back - 1, date) == 1;
      CountJoin(holidays, back - 1, back, date);
      assert Count(holidays, back, date) == 0;
      NoneBetween(holidays, back, date);
    }
  }

  lemma {:induction false} NoneBetween(holidays: set<int>, lo: int, hi: int)
    requires lo <= hi && Count(holidays, lo, hi) == 0
    ensures forall k :: lo < k <= hi ==> !IsBusinessDay(holidays, k)
    decreases hi - lo
  {
    if lo < hi { NoneBetween(holidays, lo, hi - 1); }
  }

  /** Adding and subtracting the same lag from a business day is the identity. */
  method AddThenSubtract(holidays: set<int>, date: int, n: nat) returns (d: int)
    ensures n == 0 || IsBusinessDay(holidays, date) ==> d == date
    ensures n > 0 && !IsBusinessDay(holidays, date) ==> d < date && IsBusinessDay(holidays, d) && Gap(holidays, d, date)
  {
    var ok, there := AddBusinessDays(holidays, date, n);
    ok, d := SubtractBusinessDays(holidays, there, n);
    if n > 0 { ThereAndBack(holidays, date, n, there, d); }
  }

  // ----- roll conventions -----------------------------------------------------

  datatype Convention = NoRoll | Following | ModifiedFollowing | Preceding

  /** `month` numbers the months; a modified roll only goes back when going forward would change it. */
  method Roll(holidays: set<int>, month: int -> int, date: int, convention: Convention) returns (d: int)
    ensures convention.NoRoll? || IsBusinessDay(holidays, date) ==> d == date
    ensures !convention.NoRoll? ==> IsBusinessDay(holidays, d)
    ensures convention.Following? ==> d >= date && Gap(holidays, date - 1, d)
    ensures convention.Preceding? ==> d <= date && Gap(holidays, d, date + 1)
    ensures convention.ModifiedFollowing? ==>
              (d >= date && month(d) == month(date) && Gap(holidays, date - 1, d))
              || (d < date && Gap(holidays, d, date + 1)
                  && exists f :: f > date && IsBusinessDay(holidays, f) && Gap(holidays, date, f) && month(f) != month(date))
  {
    if convention.NoRoll? || IsBusinessDay(holidays, date) { return date; }
    if convention.Preceding? {
      d := PreviousBusinessDay(holidays, date);
      return;
    }
    var following := NextBusinessDay(holidays, date);
    if convention.Following? || month(following) == month(date) { return following; }
    d := PreviousBusinessDay(holidays, date);
  }

  /** A day is open in the joint calendar exactly when both centres are open. */
  lemma JointCalendar(a: set<int>, b: set<int>, d: int)
    ensures IsBusinessDay(a + b, d) <==> IsBusinessDay(a, d) && IsBusinessDay(b, d)
  {
  }
}
