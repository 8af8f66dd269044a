/** The "upcoming vaccine" rule of the main page (src/app/page.tsx) and the three places
    that use it: the header badge, the alert banner and the highlight of each vaccine card. */
module Reminders {
  import opened Supabase

  /** Milliseconds in a day: `1000 * 60 * 60 * 24`. */
  const DayMs: int := 86_400_000

  /** Length of the reminder window, in whole days. */
  const WindowDays: int := 30

  /** UTC day number of an instant: the date part of `toISOString()`. */
  function DayOf(ms: int): (d: int)
    ensures d * DayMs <= ms < d * DayMs + DayMs
  {
    ms / DayMs
  }

  /** The instant `new Date(row.next_date)` denotes: UTC midnight of that day. */
  function NextDueMs(v: VaccineRow): int
  {
    v.nextDate * DayMs
  }

  /** `Math.floor((nextMs - nowMs) / DayMs)`: with a positive divisor Dafny's division
      is the floor of the exact quotient. */
  function DiffDays(nextMs: int, nowMs: int): (d: int)
    ensures d * DayMs <= nextMs - nowMs < (d + 1) * DayMs
  {
    (nextMs - nowMs) / DayMs
  }

  /** `diffDays <= 30 && diffDays >= 0`. */
  predicate IsUpcoming(nextMs: int, nowMs: int)
  {
    var d := DiffDays(nextMs, nowMs);
    d <= WindowDays && d >= 0
  }

  /** The same test on a vaccine row. */
  predicate VaccineUpcoming(v: VaccineRow, nowMs: int)
  {
    IsUpcoming(NextDueMs(v), nowMs)
  }

  /** The rule is a half-open window of 31 whole days starting at `now`. */
  lemma UpcomingWindow(nextMs: int, nowMs: int)
    ensures IsUpcoming(nextMs, nowMs) <==> nowMs <= nextMs < nowMs + (WindowDays + 1) * DayMs
  {
    var d := DiffDays(nextMs, nowMs);
    if d < 0 {
      assert (d + 1) * DayMs <= 0;
    } else if d > WindowDays {
      assert d * DayMs >= (WindowDays + 1) * DayMs;
    }
  }

  /** An overdue vaccine, even by one millisecond, is never flagged. */
  lemma OverdueNeverUpcoming(nextMs: int, nowMs: int)
    requires nextMs < nowMs
    ensures DiffDays(nextMs, nowMs) <= -1
    ensures !IsUpcoming(nextMs, nowMs)
  {
    UpcomingWindow(nextMs, nowMs);
  }

  /** Boundaries: due now or in exactly 30 days is upcoming; in 31 days it is not. */
  lemma UpcomingBoundaries(nowMs: int)
    ensures IsUpcoming(nowMs, nowMs)
    ensures IsUpcoming(nowMs + WindowDays * DayMs, nowMs)
    ensures !IsUpcoming(nowMs + (WindowDays + 1) * DayMs, nowMs)
    ensures !IsUpcoming(nowMs - 1, nowMs)
  {
    UpcomingWindow(nowMs, nowMs);
    UpcomingWindow(nowMs + WindowDays * DayMs, nowMs);
    UpcomingWindow(nowMs + (WindowDays + 1) * DayMs, nowMs);
    UpcomingWindow(nowMs - 1, nowMs);
  }

  /** `vaccines.some(isUpcoming)`: true iff some vaccine of the list is upcoming. */
  function AnyUpcoming(vs: seq<VaccineRow>, nowMs: int): (b: bool)
    ensures b <==> exists i :: 0 <= i < |vs| && VaccineUpcoming(vs[i], nowMs)
  {
    if vs == [] then false
    else if VaccineUpcoming(vs[0], nowMs) then true
    else
      var rest := AnyUpcoming(vs[1..], nowMs);
      assert forall i :: 1 <= i < |vs| ==> vs[i] == vs[1..][i - 1];
      rest
  }

  /** What one vaccine card shows: an amber highlight and, only then, a "N dias" badge. */
  datatype Card = Card(highlighted: bool, daysBadge: Option<int>)

  function CardOf(v: VaccineRow, nowMs: int): (c: Card)
    ensures c.highlighted <==> VaccineUpcoming(v, nowMs)
    ensures c.daysBadge.Some? <==> c.highlighted
    ensures c.daysBadge.Some? ==> c.daysBadge.value == DiffDays(NextDueMs(v), nowMs)
    ensures c.daysBadge.Some? ==> 0 <= c.daysBadge.value <= WindowDays
  {
    var d := DiffDays(NextDueMs(v), nowMs);
    var up := d <= WindowDays && d >= 0;
    Card(up, if up then Some(d) else None)
  }

  /** The vaccine cards of the selected pet, one per vaccine, in list order. */
  function Cards(vs: seq<VaccineRow>, nowMs: int): (cs: seq<Card>)
    ensures |cs| == |vs|
    ensures forall i :: 0 <= i < |vs| ==> cs[i] == CardOf(vs[i], nowMs)
  {
    seq(|vs|, i requires 0 <= i < |vs| => CardOf(vs[i], nowMs))
  }

  /** A loaded pet together with its vaccine rows. */
  datatype PetWithVaccines = PetWithVaccines(pet: PetRow, vaccines: seq<VaccineRow>)

  /** The bell badge in the header: `selectedPet && selectedPet.vaccines.some(...)`. */
  predicate BadgeShown(selected: Option<PetWithVaccines>, nowMs: int)
  {
    selected.Some? && AnyUpcoming(selected.value.vaccines, nowMs)
  }

  /** The "vacinas próximas do vencimento" alert banner of the "Meu Pet" tab: the same
      expression, but inside the branch that renders only when the roster `pets` is
      non-empty. */
  predicate BannerShown(pets: seq<PetWithVaccines>, selected: Option<PetWithVaccines>, nowMs: int)
  {
    pets != [] && selected.Some? && AnyUpcoming(selected.value.vaccines, nowMs)
  }

  /** The banner shows iff the roster is non-empty and the badge shows; the badge shows iff
      some card of the selected pet is highlighted; with no selected pet neither is shown. */
  lemma BadgeBannerCardsAgree(pets: seq<PetWithVaccines>, selected: Option<PetWithVaccines>, nowMs: int)
    ensures BannerShown(pets, selected, nowMs) <==> pets != [] && BadgeShown(selected, nowMs)
    ensures BadgeShown(selected, nowMs) <==>
              selected.Some? &&
              exists i :: 0 <= i < |selected.value.vaccines| &&
                          Cards(selected.value.vaccines, nowMs)[i].highlighted
    ensures selected.None? ==> !BadgeShown(selected, nowMs) && !BannerShown(pets, selected, nowMs)
  {
    if selected.Some? {
      var vs := selected.value.vaccines;
      var cs := Cards(vs, nowMs);
      if AnyUpcoming(vs, nowMs) {
        var i :| 0 <= i < |vs| && VaccineUpcoming(vs[i], nowMs);
        assert cs[i].highlighted;
      }
    }
  }

  /** The selection is one of the listed pets (or there is none). */
  predicate SelectionListed(pets: seq<PetWithVaccines>, selected: Option<PetWithVaccines>)
  {
    selected.Some? ==> selected.value in pets
  }

  /** While the selection is listed, the header badge and the "Meu Pet" tab's banner agree. */
  lemma BadgeIffBanner(pets: seq<PetWithVaccines>, selected: Option<PetWithVaccines>, nowMs: int)
    requires SelectionListed(pets, selected)
    ensures BadgeShown(selected, nowMs) <==> BannerShown(pets, selected, nowMs)
  {
    BadgeBannerCardsAgree(pets, selected, nowMs);
  }

  // ---------------------------------------------------------------- calendar days

  /** `q` is the floor of `x / DayMs` when it brackets `x`. */
  lemma FloorUnique(q: int, x: int)
    requires q * DayMs <= x < q * DayMs + DayMs
    ensures x / DayMs == q
  {
  }

  /** The rule read on calendar days: with `k` the number of UTC days from today to the due
      date, a vaccine is upcoming for `k` in 0..30 only at exact UTC midnight; at any other
      instant it is upcoming for `k` in 1..31. */
  lemma UpcomingByDate(v: VaccineRow, nowMs: int)
    ensures var k := v.nextDate - DayOf(nowMs);
            VaccineUpcoming(v, nowMs) <==>
              if nowMs % DayMs == 0 then 0 <= k <= WindowDays else 1 <= k <= WindowDays + 1
  {
    var d := DayOf(nowMs);
    var k := v.nextDate - d;
    var r := nowMs - d * DayMs;
    assert 0 <= r < DayMs;
    assert nowMs % DayMs == r;
    var x := NextDueMs(v) - nowMs;
    assert x == k * DayMs - r;
    if r == 0 {
      FloorUnique(k, x);
    } else {
      assert (k - 1) * DayMs + DayMs == k * DayMs;
      FloorUnique(k - 1, x);
    }
  }

  /** As written, a vaccine due on today's UTC date is not flagged after midnight, and one
      due 31 days from today is flagged with a "30 dias" badge. */
  lemma DayBoundariesAsWritten(v: VaccineRow, w: VaccineRow, nowMs: int)
    requires nowMs % DayMs != 0
    requires v.nextDate == DayOf(nowMs) && w.nextDate == DayOf(nowMs) + WindowDays + 1
    ensures !VaccineUpcoming(v, nowMs)
    ensures VaccineUpcoming(w, nowMs) && CardOf(w, nowMs).daysBadge == Some(WindowDays)
  {
    UpcomingByDate(v, nowMs);
    UpcomingByDate(w, nowMs);
    var d := DayOf(nowMs);
    var r := nowMs - d * DayMs;
    assert (d + WindowDays + 1) * DayMs - nowMs == WindowDays * DayMs + (DayMs - r);
    FloorUnique(WindowDays, NextDueMs(w) - nowMs);
  }

  /** The window the reminder is meant to have: due today up to 30 days ahead, by calendar
      date, whatever the time of day. */
  predicate DueWithinWindow(v: VaccineRow, nowMs: int)
  {
    0 <= v.nextDate - DayOf(nowMs) <= WindowDays
  }

  /** The intended window: due today and due in 30 days are flagged, due yesterday and due
      in 31 days are not, at every instant of the day; at UTC midnight it agrees with the
      rule as written. */
  lemma DueWithinWindowBoundaries(v: VaccineRow, nowMs: int)
    ensures v.nextDate == DayOf(nowMs) ==> DueWithinWindow(v, nowMs)
    ensures v.nextDate == DayOf(nowMs) + WindowDays ==> DueWithinWindow(v, nowMs)
    ensures v.nextDate == DayOf(nowMs) + WindowDays + 1 ==> !DueWithinWindow(v, nowMs)
    ensures v.nextDate == DayOf(nowMs) - 1 ==> !DueWithinWindow(v, nowMs)
    ensures nowMs % DayMs == 0 ==> (DueWithinWindow(v, nowMs) <==> VaccineUpcoming(v, nowMs))
  {
    UpcomingByDate(v, nowMs);
  }
}
