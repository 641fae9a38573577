/**
 * The desktop grid of the board: the per-day header tally
 * ("assigned • free • off" over the filtered guards) and the `Row` cell of a
 * guard on a day. Both count or show a `leave` record as free.
 */
module BoardGrid {
  import opened Wrappers
  import opened Calendar
  import opened ScheduleTypes
  import opened MockData
  import opened AssignmentIndex

  /** `assignmentsByKey.get(`${id}_${toKey(d)}`)`. */
  function RecordOf(cal: Calendar, index: map<string, Assignment>, id: string, d: Day): Option<Assignment> {
    Get(index, Key(cal, id, d))
  }

  /** How many of the guards have a record with status `s` on day `d`. */
  function CountStatus(cal: Calendar, guards: seq<Guard>, index: map<string, Assignment>, d: Day, s: Status): (n: nat)
    ensures n <= |guards|
  {
    if guards == [] then 0
    else
      var k := |guards| - 1;
      var a := RecordOf(cal, index, guards[k].id, d);
      CountStatus(cal, guards[..k], index, d, s) + (if a.Some? && a.value.status == s then 1 else 0)
  }

  /** How many of the guards have a record at all on day `d`. */
  function CountPresent(cal: Calendar, guards: seq<Guard>, index: map<string, Assignment>, d: Day): (n: nat)
    ensures n <= |guards|
  {
    if guards == [] then 0
    else
      var k := |guards| - 1;
      CountPresent(cal, guards[..k], index, d) + (if RecordOf(cal, index, guards[k].id, d).Some? then 1 else 0)
  }

  datatype Tally = Tally(onSite: nat, free: nat, off: nat)

  /** The header loop of one day column. */
  method DayTally(cal: Calendar, guards: seq<Guard>, index: map<string, Assignment>, d: Day) returns (t: Tally)
    ensures t.onSite == CountStatus(cal, guards, index, d, Assigned)
    ensures t.off == CountStatus(cal, guards, index, d, Off)
    ensures t.free == CountStatus(cal, guards, index, d, Free) + CountStatus(cal, guards, index, d, Leave)
  {
    var onSite, free, off := 0, 0, 0;
    for i := 0 to |guards|
      invariant onSite == CountStatus(cal, guards[..i], index, d, Assigned)
      invariant off == CountStatus(cal, guards[..i], index, d, Off)
      invariant free == CountStatus(cal, guards[..i], index, d, Free) + CountStatus(cal, guards[..i], index, d, Leave)
    {
      assert guards[..i + 1][..i] == guards[..i];
      var a := Get(index, Key(cal, guards[i].id, d));
      if a.None? {
        continue;
      }
      if a.value.status == Assigned {
        onSite := onSite + 1;
      } else if a.value.status == Off {
        off := off + 1;
      } else if a.value.status == Free || a.value.status == Leave {
        free := free + 1;
      }
    }
    assert guards[..|guards|] == guards;
    t := Tally(onSite, free, off);
  }

  /** The header cell of one day column. */
  datatype DayHeader = DayHeader(dateKey: string, isToday: bool, isWeekend: bool, tally: Tally)

  /**
   * The header of day `d` in the grid, with the clock's day passed in as
   * `today`: its key, its today and weekend flags and its tally over the
   * filtered guards.
   */
  method DayColumnHeader(cal: Calendar, guards: seq<Guard>, index: map<string, Assignment>, d: Day, today: Day)
    returns (h: DayHeader)
    requires ValidCalendar(cal)
    ensures h.dateKey == cal.toKey(d)
    ensures h.isToday <==> d == today
    ensures h.isWeekend <==> DayOfWeek(d) == 0 || DayOfWeek(d) == 6
    ensures h.tally.onSite == CountStatus(cal, guards, index, d, Assigned)
    ensures h.tally.off == CountStatus(cal, guards, index, d, Off)
    ensures h.tally.free == CountStatus(cal, guards, index, d, Free) + CountStatus(cal, guards, index, d, Leave)
    ensures h.tally.onSite + h.tally.free + h.tally.off == CountPresent(cal, guards, index, d) <= |guards|
  {
    IsTodayIffSameDay(cal, d, today);
    TallyAccountsForPresent(cal, guards, index, d);
    var t := DayTally(cal, guards, index, d);
    h := DayHeader(cal.toKey(d), IsToday(cal, d, today), IsWeekend(d), t);
  }

  /**
   * Every guard with a record that day is counted exactly once, so the three
   * counts add up to the guards present and never exceed the filtered list.
   */
  lemma {:induction false} TallyAccountsForPresent(cal: Calendar, guards: seq<Guard>, index: map<string, Assignment>, d: Day)
    ensures CountStatus(cal, guards, index, d, Assigned) + CountStatus(cal, guards, index, d, Free)
          + CountStatus(cal, guards, index, d, Leave) + CountStatus(cal, guards, index, d, Off)
         == CountPresent(cal, guards, index, d)
  {
    if guards != [] {
      TallyAccountsForPresent(cal, guards[..|guards| - 1], index, d);
    }
  }

  /** The cell of a guard on a day in the desktop grid. */
  datatype DeskCell =
    | Dash                                     // no record
    | SiteName(name: string, colour: Option<nat>)
    | FreeBadge                                // free, and leave
    | OffBadge
    | Blank                                    // assigned without a site: no content
    | MissingSite                              // assigned to an unknown site: `site.tagIndex` throws

  /** `SITES.find((s) => s.id === id)`: the first site with that id. */
  function FindSite(sites: seq<Site>, id: string): (r: Option<Site>)
    ensures r.Some? <==> exists k :: 0 <= k < |sites| && sites[k].id == id
    ensures r.Some? ==> r.value in sites && r.value.id == id
    ensures r.Some? ==> exists k :: 0 <= k < |sites| && sites[k] == r.value && FirstWithId(sites, id, k)
  {
    if sites == [] then None
    else if sites[0].id == id then Some(sites[0])
    else
      var r := FindSite(sites[1..], id);
      assert forall k :: 1 <= k < |sites| ==> sites[k] == sites[1..][k - 1];
      r
  }

  /** No site before index `k` has the id. */
  predicate FirstWithId(sites: seq<Site>, id: string, k: int) {
    forall m :: 0 <= m < k && m < |sites| ==> sites[m].id != id
  }

  /** The content chain of `Row` for one day. */
  function RowCell(sites: seq<Site>, a: Option<Assignment>): (cell: DeskCell)
    ensures cell.SiteName? ==>
      (a.Some? && Truthy(a.value.siteId)
       && exists k :: 0 <= k < |sites| && sites[k].id == a.value.siteId.value && cell == SiteName(sites[k].name, ColourSlot(sites[k].tagIndex)))
    ensures cell == MissingSite <==>
      (a.Some? && a.value.status == Assigned && Truthy(a.value.siteId)
       && forall k :: 0 <= k < |sites| ==> sites[k].id != a.value.siteId.value)
  {
    if a.None? then Dash
    else if a.value.status == Assigned && Truthy(a.value.siteId) then
      match FindSite(sites, a.value.siteId.value)
      case None => MissingSite
      case Some(site) => SiteName(site.name, ColourSlot(site.tagIndex))
    else if a.value.status == Free || a.value.status == Leave then FreeBadge
    else if a.value.status == Off then OffBadge
    else Blank
  }

  /** `Row`: one cell per day, in day order, each looked up under `guardId_date`. */
  function RowCells(cal: Calendar, sites: seq<Site>, g: Guard, days: seq<Day>, index: map<string, Assignment>): (r: seq<DeskCell>)
    ensures |r| == |days|
    ensures forall i :: 0 <= i < |days| ==> r[i] == RowCell(sites, RecordOf(cal, index, g.id, days[i]))
  {
    seq(|days|, i requires 0 <= i < |days| => RowCell(sites, RecordOf(cal, index, g.id, days[i])))
  }

  /**
   * Cell `i` of a row shows the record stored under `guardId_date` for day `i`:
   * a dash exactly when there is none, the free badge exactly for free and
   * leave, the off badge exactly for off, an empty cell exactly for assigned
   * without a site, and otherwise the site named by the record.
   */
  lemma RowCellsAt(cal: Calendar, sites: seq<Site>, g: Guard, days: seq<Day>, index: map<string, Assignment>, i: int)
    requires 0 <= i < |days|
    ensures var cell := RowCells(cal, sites, g, days, index)[i]; var key := Key(cal, g.id, days[i]);
      && (cell == Dash <==> key !in index)
      && (cell == FreeBadge <==> key in index && (index[key].status == Free || index[key].status == Leave))
      && (cell == OffBadge <==> key in index && index[key].status == Off)
      && (cell == Blank <==> key in index && index[key].status == Assigned && !Truthy(index[key].siteId))
      && (cell.SiteName? || cell == MissingSite <==> key in index && index[key].status == Assigned && Truthy(index[key].siteId))
      && (cell.SiteName? ==>
            exists k :: 0 <= k < |sites| && sites[k].id == index[key].siteId.value && cell == SiteName(sites[k].name, ColourSlot(sites[k].tagIndex)))
  {
    RowCellClassification(sites, RecordOf(cal, index, g.id, days[i]));
  }

  /**
   * How a record is shown: a dash exactly when there is none; the free badge
   * exactly for free and leave; the off badge exactly for off; otherwise the
   * record is assigned, and it shows a site when its site id is non-empty.
   */
  lemma RowCellClassification(sites: seq<Site>, a: Option<Assignment>)
    ensures RowCell(sites, a) == Dash <==> a.None?
    ensures RowCell(sites, a) == FreeBadge <==> a.Some? && (a.value.status == Free || a.value.status == Leave)
    ensures RowCell(sites, a) == OffBadge <==> a.Some? && a.value.status == Off
    ensures RowCell(sites, a) == Blank <==> a.Some? && a.value.status == Assigned && !Truthy(a.value.siteId)
    ensures RowCell(sites, a).SiteName? ==> a.Some? && a.value.status == Assigned && Truthy(a.value.siteId)
  {
  }

  /** How many of the guards show cell `c` on day `d`. */
  function CountCells(cal: Calendar, sites: seq<Site>, guards: seq<Guard>, index: map<string, Assignment>, d: Day, c: DeskCell): (n: nat)
    ensures n <= |guards|
  {
    if guards == [] then 0
    else
      var k := |guards| - 1;
      CountCells(cal, sites, guards[..k], index, d, c)
        + (if RowCell(sites, RecordOf(cal, index, guards[k].id, d)) == c then 1 else 0)
  }

  /**
   * The header agrees with the column below it: its free count is the number
   * of free badges (leave included) and its off count the number of off badges.
   */
  lemma {:induction false} TallyMatchesBadges(cal: Calendar, sites: seq<Site>, guards: seq<Guard>, index: map<string, Assignment>, d: Day)
    ensures CountStatus(cal, guards, index, d, Free) + CountStatus(cal, guards, index, d, Leave)
         == CountCells(cal, sites, guards, index, d, FreeBadge)
    ensures CountStatus(cal, guards, index, d, Off) == CountCells(cal, sites, guards, index, d, OffBadge)
  {
    if guards != [] {
      var k := |guards| - 1;
      TallyMatchesBadges(cal, sites, guards[..k], index, d);
      RowCellClassification(sites, RecordOf(cal, index, guards[k].id, d));
    }
  }

  /** Site ids are non-empty and the site list is where generated site ids come from. */
  predicate SitesNamed(sites: seq<Site>) {
    forall k :: 0 <= k < |sites| ==> sites[k].id != ""
  }

  /**
   * On generator output every cell of the grid shows a site, a free badge or
   * an off badge: no dash, no blank and no unknown site.
   */
  lemma GeneratedRowCell(cal: Calendar, sites: seq<Site>, guards: seq<Guard>, start: Day, end: Day, j: int, d: Day)
    requires ValidCalendar(cal) && GuardIdsWellFormed(guards) && DistinctGuardIds(guards)
    requires |sites| > 0 && SitesNamed(sites)
    requires start <= d <= end && 0 <= j < |guards|
    ensures var index := IndexOf(cal, Generate(cal, sites, guards, Days(start, end)));
      var cell := RowCells(cal, sites, guards[j], Days(start, end), index)[d - start];
      cell.SiteName? || cell == FreeBadge || cell == OffBadge
  {
    assert Days(start, end)[d - start] == d;
    GeneratedLookup(cal, sites, guards, start, end, j, d);
    MockRecordRule(cal, sites, guards[j], d);
  }

  /** The mock sites have names to look up and seven different colours. */
  lemma MockSitesColoured()
    ensures SitesNamed(SITES)
    ensures forall k :: 0 <= k < |SITES| ==> ColourSlot(SITES[k].tagIndex) == Some(k)
  {
  }
}
