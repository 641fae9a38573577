/**
 * The mock roster and the deterministic assignment generator
 * (`makeMockAssignments`): one record per day and guard, day-major, whose
 * status is decided by `dice = (charCode(id[1]) + dayOfMonth) % 10`.
 */
module MockData {
  import opened Wrappers
  import opened Calendar
  import opened JsText
  import opened ScheduleTypes

  const SITES: seq<Site> := [
    Site("vega1", "Вега Сити1", 1, None),
    Site("vega2", "Вега Сити2", 2, None),
    Site("хан1", "Хан-Хиллс1", 3, None),
    Site("хан2", "Хан-Хиллс2", 4, None),
    Site("зайсан", "Зайсан", 5, None),
    Site("кристал", "Кристал", 6, None),
    Site("aca", "ACA", 7, None)
  ]

  const GUARDS: seq<Guard> := [
    Guard("g1", "Баярсайхан", None),
    Guard("g2", "Билгүүн", None),
    Guard("g3", "Пүрэвсүрэн", None),
    Guard("g4", "Нямдорж", None),
    Guard("g5", "Төгс-Эрдэнэ", None),
    Guard("g6", "Сод-Өлзий", None),
    Guard("g7", "Амгалан", None),
    Guard("g8", "Сэргэлэн", None),
    Guard("g9", "Ганбаатар", None),
    Guard("g10", "Ариунболд", None),
    Guard("g11", "Гантулга", None),
    Guard("g12", "Бехчулун", None)
  ]

  /** The roster's identifier shape: "g" and at least one decimal digit. */
  predicate WellFormedGuardId(id: string) {
    |id| >= 2 && id[0] == 'g' && forall k :: 1 <= k < |id| ==> IsDigit(id[k])
  }

  predicate GuardIdsWellFormed(guards: seq<Guard>) {
    forall i :: 0 <= i < |guards| ==> WellFormedGuardId(guards[i].id)
  }

  predicate DistinctGuardIds(guards: seq<Guard>) {
    forall i, j :: 0 <= i < j < |guards| ==> guards[i].id != guards[j].id
  }

  /** `guard.id.charCodeAt(1)`: the code of the second character only. */
  function Seed(id: string): int
    requires |id| >= 2
  {
    id[1] as int
  }

  /** `parseInt(guard.id.replace("g", ""))`: the digits after the leading "g". */
  function NumericSuffix(id: string): nat
    requires WellFormedGuardId(id)
  {
    DigitsValue(id[1..])
  }

  /** `(guard.id.charCodeAt(1) + d.getDate()) % 10`; both operands are non-negative. */
  function Dice(cal: Calendar, id: string, d: Day): (dice: int)
    requires ValidCalendar(cal) && WellFormedGuardId(id)
    ensures 0 <= dice < 10
  {
    (Seed(id) + cal.dayOfMonth(d)) % 10
  }

  /** `(d.getDate() + parseInt(suffix)) % SITES.length`. */
  function SiteIndex(cal: Calendar, id: string, d: Day, siteCount: nat): (i: nat)
    requires ValidCalendar(cal) && WellFormedGuardId(id) && siteCount > 0
    ensures i < siteCount
  {
    (cal.dayOfMonth(d) + NumericSuffix(id)) % siteCount
  }

  /** The record the generator emits for one guard on one day. */
  function MockRecord(cal: Calendar, sites: seq<Site>, g: Guard, d: Day): (r: Assignment)
    requires ValidCalendar(cal) && WellFormedGuardId(g.id) && |sites| > 0
    ensures r.guardId == g.id && r.date == d
    ensures r.siteId.Some? <==> r.status == Assigned
    ensures r.siteId.Some? ==> exists k :: 0 <= k < |sites| && sites[k].id == r.siteId.value
  {
    var dice := Dice(cal, g.id, d);
    if dice < 2 then Assignment(g.id, d, Off, None)
    else if dice == 9 then Assignment(g.id, d, Leave, None)
    else if dice < 6 then Assignment(g.id, d, Assigned, Some(sites[SiteIndex(cal, g.id, d, |sites|)].id))
    else Assignment(g.id, d, Free, None)
  }

  /**
   * The status rule: dice 0-1 is off, 2-5 assigned, 6-8 free, 9 leave; a site
   * is named exactly for assigned records, and it is a site of the list.
   */
  lemma MockRecordRule(cal: Calendar, sites: seq<Site>, g: Guard, d: Day)
    requires ValidCalendar(cal) && WellFormedGuardId(g.id) && |sites| > 0
    ensures var r := MockRecord(cal, sites, g, d); var dice := Dice(cal, g.id, d);
      && r.guardId == g.id && r.date == d
      && (r.status == Off <==> dice <= 1)
      && (r.status == Assigned <==> 2 <= dice <= 5)
      && (r.status == Free <==> 6 <= dice <= 8)
      && (r.status == Leave <==> dice == 9)
      && (r.siteId.Some? <==> r.status == Assigned)
      && (r.siteId.Some? ==> r.siteId.value == sites[SiteIndex(cal, g.id, d, |sites|)].id)
  {
  }

  /** The records for one day, in roster order. */
  function DayRecords(cal: Calendar, sites: seq<Site>, guards: seq<Guard>, d: Day): (r: seq<Assignment>)
    requires ValidCalendar(cal) && GuardIdsWellFormed(guards) && |sites| > 0
    ensures |r| == |guards|
  {
    if guards == [] then []
    else
      var n := |guards| - 1;
      DayRecords(cal, sites, guards[..n], d) + [MockRecord(cal, sites, guards[n], d)]
  }

  /** All records: the day blocks one after another, in day order. */
  function Generate(cal: Calendar, sites: seq<Site>, guards: seq<Guard>, days: seq<Day>): (r: seq<Assignment>)
    requires ValidCalendar(cal) && GuardIdsWellFormed(guards) && |sites| > 0
    ensures |r| == |days| * |guards|
  {
    if days == [] then []
    else
      var n := |days| - 1;
      assert |days| * |guards| == n * |guards| + |guards|;
      Generate(cal, sites, guards, days[..n]) + DayRecords(cal, sites, guards, days[n])
  }

  /** A day block holds one record per guard, in roster order. */
  lemma {:induction false} DayRecordsAt(cal: Calendar, sites: seq<Site>, guards: seq<Guard>, d: Day)
    requires ValidCalendar(cal) && GuardIdsWellFormed(guards) && |sites| > 0
    ensures |DayRecords(cal, sites, guards, d)| == |guards|
    ensures forall j :: 0 <= j < |guards| ==> DayRecords(cal, sites, guards, d)[j] == MockRecord(cal, sites, guards[j], d)
  {
    if guards != [] {
      DayRecordsAt(cal, sites, guards[..|guards| - 1], d);
    }
  }

  /**
   * Day-major layout: the record for the j-th guard on the i-th day sits at
   * index i * |guards| + j.
   */
  lemma {:induction false} GenerateAt(cal: Calendar, sites: seq<Site>, guards: seq<Guard>, days: seq<Day>, i: nat, j: nat)
    requires ValidCalendar(cal) && GuardIdsWellFormed(guards) && |sites| > 0
    requires i < |days| && j < |guards|
    ensures i * |guards| + j < |Generate(cal, sites, guards, days)|
    ensures Generate(cal, sites, guards, days)[i * |guards| + j] == MockRecord(cal, sites, guards[j], days[i])
  {
    var n := |days| - 1;
    var g := |guards|;
    var prefix := Generate(cal, sites, guards, days[..n]);
    var block := DayRecords(cal, sites, guards, days[n]);
    DayRecordsAt(cal, sites, guards, days[n]);
    var k := i * g + j;
    if i < n {
      GenerateAt(cal, sites, guards, days[..n], i, j);
      assert days[..n][i] == days[i];
    } else {
      assert k == |prefix| + j;
      assert block[j] == MockRecord(cal, sites, guards[j], days[i]);
    }
  }

  /** Every record belongs to one of the given days. */
  lemma {:induction false} GenerateDates(cal: Calendar, sites: seq<Site>, guards: seq<Guard>, days: seq<Day>, p: int)
    requires ValidCalendar(cal) && GuardIdsWellFormed(guards) && |sites| > 0
    requires 0 <= p < |Generate(cal, sites, guards, days)|
    ensures Generate(cal, sites, guards, days)[p].date in days
  {
    var n := |days| - 1;
    var prefix := Generate(cal, sites, guards, days[..n]);
    DayRecordsAt(cal, sites, guards, days[n]);
    if p < |prefix| {
      GenerateDates(cal, sites, guards, days[..n], p);
    }
  }

  predicate DistinctDays(days: seq<Day>) {
    forall i, j :: 0 <= i < j < |days| ==> days[i] != days[j]
  }

  /** The record for a roster guard on a day of the range is among the generated ones. */
  lemma GeneratedRecordFor(cal: Calendar, sites: seq<Site>, guards: seq<Guard>, start: Day, end: Day, j: int, d: Day)
    returns (p: nat)
    requires ValidCalendar(cal) && GuardIdsWellFormed(guards) && |sites| > 0
    requires start <= d <= end && 0 <= j < |guards|
    ensures p < |Generate(cal, sites, guards, Days(start, end))|
    ensures Generate(cal, sites, guards, Days(start, end))[p] == MockRecord(cal, sites, guards[j], d)
  {
    var days := Days(start, end);
    var i := d - start;
    assert days[i] == d;
    GenerateAt(cal, sites, guards, days, i, j);
    p := i * |guards| + j;
  }

  /** Every record is the rule's record for one roster guard on one listed day. */
  lemma {:induction false} GenerateOrigin(cal: Calendar, sites: seq<Site>, guards: seq<Guard>, days: seq<Day>, p: int)
    returns (i: nat, j: nat)
    requires ValidCalendar(cal) && GuardIdsWellFormed(guards) && |sites| > 0
    requires 0 <= p < |Generate(cal, sites, guards, days)|
    ensures i < |days| && j < |guards|
    ensures Generate(cal, sites, guards, days)[p] == MockRecord(cal, sites, guards[j], days[i])
  {
    var n := |days| - 1;
    var prefix := Generate(cal, sites, guards, days[..n]);
    DayRecordsAt(cal, sites, guards, days[n]);
    if p < |prefix| {
      i, j := GenerateOrigin(cal, sites, guards, days[..n], p);
      assert days[..n][i] == days[i];
    } else {
      i, j := n, p - |prefix|;
    }
  }

  /** No two records share a (guard, day) pair. */
  predicate UniqueGuardDays(rs: seq<Assignment>) {
    forall p, q :: 0 <= p < q < |rs| ==> rs[p].guardId != rs[q].guardId || rs[p].date != rs[q].date
  }

  /**
   * With distinct guard ids and distinct days, no two records share a
   * (guard, day) pair: together with GenerateAt, exactly one record per pair.
   */
  lemma {:induction false} GenerateUniquePairs(cal: Calendar, sites: seq<Site>, guards: seq<Guard>, days: seq<Day>)
    requires ValidCalendar(cal) && GuardIdsWellFormed(guards) && |sites| > 0
    requires DistinctGuardIds(guards) && DistinctDays(days)
    ensures UniqueGuardDays(Generate(cal, sites, guards, days))
  {
    if days != [] {
      var n := |days| - 1;
      var r := Generate(cal, sites, guards, days);
      var prefix := Generate(cal, sites, guards, days[..n]);
      var block := DayRecords(cal, sites, guards, days[n]);
      GenerateUniquePairs(cal, sites, guards, days[..n]);
      DayRecordsAt(cal, sites, guards, days[n]);
      forall p, q | 0 <= p < q < |r|
        ensures r[p].guardId != r[q].guardId || r[p].date != r[q].date
      {
        if q < |prefix| {
          assert r[p] == prefix[p] && r[q] == prefix[q];
          assert prefix[p].guardId != prefix[q].guardId || prefix[p].date != prefix[q].date;
        } else if p < |prefix| {
          GenerateDates(cal, sites, guards, days[..n], p);
          assert r[p] == prefix[p] && r[q] == block[q - |prefix|];
          assert r[q].date == days[n];
          assert days[n] !in days[..n];
          assert r[p].date in days[..n];
        } else {
          var p', q' := p - |prefix|, q - |prefix|;
          assert r[p] == block[p'] && r[q] == block[q'];
          assert r[p].guardId == guards[p'].id && r[q].guardId == guards[q'].id;
          assert guards[p'].id != guards[q'].id;
        }
      }
    }
  }

  /** The generated days of a range are distinct. */
  lemma DaysDistinct(start: Day, end: Day)
    requires start <= end
    ensures DistinctDays(Days(start, end))
  {
    forall i, j | 0 <= i < j < |Days(start, end)| ensures Days(start, end)[i] != Days(start, end)[j] {
      DaysAscending(start, end, i, j);
    }
  }

  /** The board's own roster and site list meet the generator's demands. */
  lemma RosterWellFormed()
    ensures GuardIdsWellFormed(GUARDS) && |SITES| == 7
    ensures forall i :: 0 <= i < |GUARDS| ==> '_' !in GUARDS[i].id
  {
  }

  /** The roster's identifiers are pairwise distinct. */
  lemma RosterDistinct()
    ensures DistinctGuardIds(GUARDS)
  {
  }

  /**
   * Only the character at index 1 seeds the dice, so "g10", "g11" and "g12"
   * get g1's status every day (their sites still differ).
   */
  lemma SeedQuirk(cal: Calendar, sites: seq<Site>, d: Day)
    requires ValidCalendar(cal) && |sites| > 0
    ensures forall k :: 9 <= k < 12 ==>
      MockRecord(cal, sites, GUARDS[k], d).status == MockRecord(cal, sites, GUARDS[0], d).status
  {
  }

  /** `makeMockAssignments(start, end)`, over the roster and the site list it is given. */
  method MakeMockAssignments(cal: Calendar, guards: seq<Guard>, sites: seq<Site>, start: Day, end: Day)
    returns (assignments: seq<Assignment>)
    requires ValidCalendar(cal) && GuardIdsWellFormed(guards) && |sites| > 0
    requires start <= end
    ensures assignments == Generate(cal, sites, guards, Days(start, end))
  {
    var days := Days(start, end);
    assignments := [];
    for i := 0 to |days|
      invariant assignments == Generate(cal, sites, guards, days[..i])
    {
      var d := days[i];
      for j := 0 to |guards|
        invariant assignments == Generate(cal, sites, guards, days[..i]) + DayRecords(cal, sites, guards[..j], d)
      {
        var guard := guards[j];
        var dice := (guard.id[1] as int + cal.dayOfMonth(d)) % 10;
        if dice < 2 {
          assignments := assignments + [Assignment(guard.id, d, Off, None)];
        } else if dice == 9 {
          assignments := assignments + [Assignment(guard.id, d, Leave, None)];
        } else if dice < 6 {
          var site := sites[(cal.dayOfMonth(d) + NumericSuffix(guard.id)) % |sites|];
          assignments := assignments + [Assignment(guard.id, d, Assigned, Some(site.id))];
        } else {
          assignments := assignments + [Assignment(guard.id, d, Free, None)];
        }
        assert guards[..j + 1][..j] == guards[..j];
      }
      assert guards[..|guards|] == guards;
      assert days[..i + 1][..i] == days[..i];
    }
    assert days[..|days|] == days;
  }
}
