/** The statistics panel: counts and sums over the loaded list of travels. */
module Statistics {
  import opened TravelModel
  import opened Seqs

  /** `travels.reduce((sum, t) => sum + t.budget, 0)`. */
  function TotalBudget(ts: seq<Travel>): int
  {
    if ts == [] then 0 else ts[0].budget + TotalBudget(ts[1..])
  }

  /** `totalTravels > 0 ? totalBudget / totalTravels : 0`, in exact arithmetic. */
  function AverageBudget(ts: seq<Travel>): (avg: real)
    ensures |ts| == 0 ==> avg == 0.0
    ensures |ts| > 0 ==> avg * (|ts| as real) == TotalBudget(ts) as real
  {
    if |ts| > 0 then TotalBudget(ts) as real / |ts| as real else 0.0
  }

  /** How many travels have status `s`. */
  function CountStatus(ts: seq<Travel>, s: Status): nat
  {
    if ts == [] then 0 else (if ts[0].status == s then 1 else 0) + CountStatus(ts[1..], s)
  }

  /** The test behind `upcomingTravels`: starts after `now` and is not cancelled. */
  function UpcomingTest(now: Timestamp): Travel -> bool
  {
    (t: Travel) => t.startDate > now && t.status != Cancelled
  }

  /** `travels.filter(upcoming).length`. */
  function UpcomingCount(ts: seq<Travel>, now: Timestamp): (n: nat)
    ensures n <= |ts|
    ensures n == 0 <==> forall t :: t in ts ==> !(t.startDate > now && t.status != Cancelled)
    ensures n == |ts| <==> forall t :: t in ts ==> t.startDate > now && t.status != Cancelled
  {
    var up := Filter(ts, UpcomingTest(now));
    assert |up| == |ts| <==> forall t :: t in ts ==> UpcomingTest(now)(t) by {
      FilterKeepsAllIff(ts, UpcomingTest(now));
    }
    assert |up| == 0 <==> forall t :: t in ts ==> !UpcomingTest(now)(t) by {
      if |up| != 0 {
        assert up[0] in up;
      }
    }
    |up|
  }

  /** Total activities: `reduce((sum, t) => sum + t.activities.length, 0)`. */
  function TotalActivities(ts: seq<Travel>): nat
  {
    if ts == [] then 0 else |ts[0].activities| + TotalActivities(ts[1..])
  }

  /** Total accommodations, likewise. */
  function TotalAccommodations(ts: seq<Travel>): nat
  {
    if ts == [] then 0 else |ts[0].accommodations| + TotalAccommodations(ts[1..])
  }

  /** The four per-status counts add up to the number of travels. */
  lemma {:induction false} StatusCountsSum(ts: seq<Travel>)
    ensures CountStatus(ts, Planning) + CountStatus(ts, Confirmed) +
            CountStatus(ts, Completed) + CountStatus(ts, Cancelled) == |ts|
  {
    if ts != [] {
      StatusCountsSum(ts[1..]);
    }
  }

  /** A status no travel has is counted zero, and a count is never more than
      the number of travels. */
  lemma {:induction false} CountStatusBounds(ts: seq<Travel>, s: Status)
    ensures CountStatus(ts, s) <= |ts|
    ensures CountStatus(ts, s) == 0 <==> forall t :: t in ts ==> t.status != s
  {
    if ts != [] {
      CountStatusBounds(ts[1..], s);
      assert forall t :: t in ts ==> t == ts[0] || t in ts[1..];
    }
  }

  /** The budget total over a concatenation is the sum of the totals. */
  lemma {:induction false} TotalBudgetAppend(a: seq<Travel>, b: seq<Travel>)
    ensures TotalBudget(a + b) == TotalBudget(a) + TotalBudget(b)
  {
    if a != [] {
      assert (a + b)[1..] == a[1..] + b && (a + b)[0] == a[0];
      TotalBudgetAppend(a[1..], b);
    } else {
      assert a + b == b;
    }
  }

  /** Budgets that pass the schema give a total of at least zero. */
  lemma {:induction false} TotalBudgetNonNegative(ts: seq<Travel>)
    requires forall t :: t in ts ==> ValidTravel(t)
    ensures TotalBudget(ts) >= 0
  {
    if ts != [] {
      assert ts[0] in ts && forall t :: t in ts[1..] ==> t in ts;
      TotalBudgetNonNegative(ts[1..]);
    }
  }

  /** Pushing one activity onto one listed travel raises the activity total by
      exactly one and leaves the accommodation total alone. */
  lemma {:induction false} TotalsAfterAddActivity(ts: seq<Travel>, k: nat, a: Activity, now: Timestamp)
    requires k < |ts|
    ensures TotalActivities(ts[k := WithActivity(ts[k], a, now)]) == TotalActivities(ts) + 1
    ensures TotalAccommodations(ts[k := WithActivity(ts[k], a, now)]) == TotalAccommodations(ts)
  {
    if k > 0 {
      TotalsAfterAddActivity(ts[1..], k - 1, a, now);
      assert ts[k := WithActivity(ts[k], a, now)][1..] == ts[1..][k - 1 := WithActivity(ts[k], a, now)];
    }
  }

  /** Pushing one accommodation onto one listed travel raises the accommodation
      total by exactly one and leaves the activity total alone. */
  lemma {:induction false} TotalsAfterAddAccommodation(ts: seq<Travel>, k: nat, a: Accommodation, now: Timestamp)
    requires k < |ts|
    ensures TotalAccommodations(ts[k := WithAccommodation(ts[k], a, now)]) == TotalAccommodations(ts) + 1
    ensures TotalActivities(ts[k := WithAccommodation(ts[k], a, now)]) == TotalActivities(ts)
  {
    if k > 0 {
      TotalsAfterAddAccommodation(ts[1..], k - 1, a, now);
      assert ts[k := WithAccommodation(ts[k], a, now)][1..] == ts[1..][k - 1 := WithAccommodation(ts[k], a, now)];
    }
  }

  /** `statusCounts`: a dictionary built by bumping `counts[status]` once per
      travel; a status with no travel has no entry. */
  method StatusCounts(travels: seq<Travel>) returns (counts: map<Status, nat>)
    ensures forall s :: s in counts <==> CountStatus(travels, s) > 0
    ensures forall s :: s in counts ==> counts[s] == CountStatus(travels, s)
  {
    counts := map[];
    var i := 0;
    while i < |travels|
      invariant 0 <= i <= |travels|
      invariant forall s :: s in counts <==> CountStatus(travels[..i], s) > 0
      invariant forall s :: s in counts ==> counts[s] == CountStatus(travels[..i], s)
    {
      var st := travels[i];
      CountStatusSnoc(travels[..i], st);
      assert travels[..i + 1] == travels[..i] + [st];
      counts := counts[st.status := (if st.status in counts then counts[st.status] else 0) + 1];
      i := i + 1;
    }
    assert travels[..i] == travels;
  }

  /** Counting over a list extended by one travel. */
  lemma {:induction false} CountStatusSnoc(ts: seq<Travel>, t: Travel)
    ensures forall s :: CountStatus(ts + [t], s) == CountStatus(ts, s) + (if t.status == s then 1 else 0)
  {
    if ts != [] {
      CountStatusSnoc(ts[1..], t);
      assert (ts + [t])[1..] == ts[1..] + [t];
    }
  }

  /** `counts[status] || 0`. */
  function Tally(counts: map<Status, nat>, s: Status): nat
  {
    if s in counts then counts[s] else 0
  }

  datatype Stats = Stats(
    totalTravels: nat,
    totalBudget: int,
    averageBudget: real,
    statusCounts: map<Status, nat>,
    upcomingTravels: nat,
    completedTravels: nat,
    planningTravels: nat,
    totalActivities: nat,
    totalAccommodations: nat)

  /** Everything the panel shows, for the list `travels` at time `now`. */
  method Compute(travels: seq<Travel>, now: Timestamp) returns (st: Stats)
    ensures st.totalTravels == |travels|
    ensures st.totalBudget == TotalBudget(travels)
    ensures st.averageBudget == AverageBudget(travels)
    ensures forall s :: Tally(st.statusCounts, s) == CountStatus(travels, s)
    ensures st.upcomingTravels == UpcomingCount(travels, now) <= st.totalTravels
    ensures st.completedTravels == CountStatus(travels, Completed)
    ensures st.planningTravels == CountStatus(travels, Planning)
    ensures st.totalActivities == TotalActivities(travels)
    ensures st.totalAccommodations == TotalAccommodations(travels)
  {
    var counts := StatusCounts(travels);
    st := Stats(
      |travels|, TotalBudget(travels), AverageBudget(travels), counts,
      UpcomingCount(travels, now), Tally(counts, Completed), Tally(counts, Planning),
      TotalActivities(travels), TotalAccommodations(travels));
  }
}
