/**
 * The mobile card of one site: one row per shown day, each with
 * `capacity ?? 1` slots filled in order from the site-day guard list; a
 * filled slot edits that guard, an empty slot asks for a new one.
 */
module MobileSiteCard {
  import opened Wrappers
  import opened Calendar
  import opened ScheduleTypes

  /** The arguments of `onEditCell(siteId, date, guardId?)`. */
  datatype EditRequest = EditRequest(siteId: string, dateKey: string, guardId: Option<string>)

  datatype Slot =
    | Filled(guard: Guard, edit: EditRequest)
    | Empty(edit: EditRequest)

  datatype SiteDayRow = SiteDayRow(dateKey: string, isToday: bool, isWeekend: bool, slots: seq<Slot>)

  /** `site.capacity ?? 1`. */
  function Capacity(site: Site): nat {
    site.capacity.GetOr(1)
  }

  /** `assignmentsBySiteDate.get(`${site.id}_${dateKey}`) || []`. */
  function GuardsAt(cal: Calendar, bySiteDate: map<string, seq<Guard>>, siteId: string, d: Day): (gs: seq<Guard>)
    ensures Key(cal, siteId, d) in bySiteDate ==> gs == bySiteDate[Key(cal, siteId, d)]
    ensures Key(cal, siteId, d) !in bySiteDate ==> gs == []
  {
    Get(bySiteDate, Key(cal, siteId, d)).GetOr([])
  }

  /** Slot `i`: `guards[i]` when there is one, else the empty button. */
  function SlotAt(site: Site, dateKey: string, guards: seq<Guard>, i: nat): Slot {
    if i < |guards| then Filled(guards[i], EditRequest(site.id, dateKey, Some(guards[i].id)))
    else Empty(EditRequest(site.id, dateKey, None))
  }

  /** `Array.from({ length: site.capacity ?? 1 }).map(...)`. */
  function Slots(site: Site, dateKey: string, guards: seq<Guard>): (slots: seq<Slot>)
    ensures |slots| == Capacity(site)
    ensures forall i :: 0 <= i < |slots| ==> (slots[i].Filled? <==> i < |guards|)
    ensures forall i :: 0 <= i < |slots| && slots[i].Filled? ==>
      slots[i].guard == guards[i] && slots[i].edit == EditRequest(site.id, dateKey, Some(guards[i].id))
    ensures forall i :: 0 <= i < |slots| && slots[i].Empty? ==>
      slots[i].edit == EditRequest(site.id, dateKey, None)
  {
    seq(Capacity(site), i requires 0 <= i < Capacity(site) => SlotAt(site, dateKey, guards, i))
  }

  /** `days.map(...)`: one row per day, in order. */
  function SiteDayRows(cal: Calendar, site: Site, days: seq<Day>, bySiteDate: map<string, seq<Guard>>, today: Day): (rows: seq<SiteDayRow>)
    ensures |rows| == |days|
    ensures forall i :: 0 <= i < |days| ==>
      rows[i] == SiteDayRow(cal.toKey(days[i]), IsToday(cal, days[i], today), IsWeekend(days[i]),
        Slots(site, cal.toKey(days[i]), GuardsAt(cal, bySiteDate, site.id, days[i])))
  {
    seq(|days|, i requires 0 <= i < |days| =>
      SiteDayRow(cal.toKey(days[i]), IsToday(cal, days[i], today), IsWeekend(days[i]),
        Slots(site, cal.toKey(days[i]), GuardsAt(cal, bySiteDate, site.id, days[i]))))
  }

  /** The guards the slots show, in slot order. */
  function ShownGuards(slots: seq<Slot>): seq<Guard> {
    if slots == [] then []
    else
      var k := |slots| - 1;
      ShownGuards(slots[..k]) + (if slots[k].Filled? then [slots[k].guard] else [])
  }

  function Min(a: int, b: int): int {
    if a <= b then a else b
  }

  /** Slots laid out by `SlotAt` show the first guards of the list, as many as there are slots. */
  lemma {:induction false} SlotPrefixShowsPrefix(site: Site, dateKey: string, guards: seq<Guard>, slots: seq<Slot>)
    requires forall i :: 0 <= i < |slots| ==> slots[i] == SlotAt(site, dateKey, guards, i)
    ensures ShownGuards(slots) == guards[..Min(|slots|, |guards|)]
  {
    if slots != [] {
      var k := |slots| - 1;
      SlotPrefixShowsPrefix(site, dateKey, guards, slots[..k]);
    }
  }

  /**
   * A site-day shows exactly the first `capacity ?? 1` guards of its list, in
   * order; guards beyond the capacity are never shown.
   */
  lemma ShownGuardsArePrefix(site: Site, dateKey: string, guards: seq<Guard>)
    ensures ShownGuards(Slots(site, dateKey, guards)) == guards[..Min(Capacity(site), |guards|)]
  {
    SlotPrefixShowsPrefix(site, dateKey, guards, Slots(site, dateKey, guards));
  }

  /** With no capacity set there is one slot, showing the first guard if any. */
  lemma DefaultCapacity(site: Site, dateKey: string, guards: seq<Guard>)
    requires site.capacity.None?
    ensures |Slots(site, dateKey, guards)| == 1
    ensures Slots(site, dateKey, guards)[0].Filled? <==> guards != []
  {
  }

  /**
   * A row keys and flags its day: the key is the day's `yyyy-MM-dd` key, the
   * today flag holds exactly on the clock's day, the weekend flag on Sunday and
   * Saturday; slot `k` shows the `k`-th guard stored under `siteId_dateKey`
   * when there is one, and every slot's edit names this site and day (and the
   * guard shown); a site-day without an entry shows only empty slots.
   */
  lemma SiteDayRowAt(cal: Calendar, site: Site, days: seq<Day>, bySiteDate: map<string, seq<Guard>>, today: Day, i: int)
    requires ValidCalendar(cal) && 0 <= i < |days|
    ensures var row := SiteDayRows(cal, site, days, bySiteDate, today)[i];
      && row.dateKey == cal.toKey(days[i])
      && (row.isToday <==> days[i] == today)
      && (row.isWeekend <==> DayOfWeek(days[i]) == 0 || DayOfWeek(days[i]) == 6)
      && |row.slots| == Capacity(site)
      && (var list := GuardsAt(cal, bySiteDate, site.id, days[i]);
          forall k :: 0 <= k < |row.slots| ==>
            && (row.slots[k].Filled? <==> k < |list|)
            && (row.slots[k].Filled? ==>
                  && row.slots[k].guard == list[k]
                  && row.slots[k].edit == EditRequest(site.id, cal.toKey(days[i]), Some(list[k].id)))
            && (row.slots[k].Empty? ==> row.slots[k].edit == EditRequest(site.id, cal.toKey(days[i]), None)))
      && (Key(cal, site.id, days[i]) !in bySiteDate ==> forall k :: 0 <= k < |row.slots| ==> row.slots[k].Empty?)
      && (Key(cal, site.id, days[i]) in bySiteDate ==>
            ShownGuards(row.slots) == bySiteDate[Key(cal, site.id, days[i])][..Min(Capacity(site), |bySiteDate[Key(cal, site.id, days[i])]|)])
  {
    var d := days[i];
    IsTodayIffSameDay(cal, d, today);
    ShownGuardsArePrefix(site, cal.toKey(d), GuardsAt(cal, bySiteDate, site.id, d));
  }
}
