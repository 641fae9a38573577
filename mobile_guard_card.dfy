/**
 * The mobile card of one guard: one row per shown day, each with the day's
 * key and the content of that day's record. Unlike the desktop grid, a leave
 * record has its own badge, and the site colour is taken from the digits of
 * the site id instead of the site's tag index.
 */
module MobileGuardCard {
  import opened Wrappers
  import opened Calendar
  import opened JsText
  import opened ScheduleTypes
  import opened MockData
  import opened AssignmentIndex
  import BoardGrid

  datatype MobileCell =
    | Dash
    | SiteTag(siteId: string, colour: nat)
    | FreeBadge
    | OffBadge
    | LeaveBadge

  datatype MobileRow = MobileRow(dateKey: string, cell: MobileCell)

  /** `parseInt(siteId.replace(/[^0-9]/g, "")) || 1`. */
  function TagIndex(siteId: string): (i: nat)
    ensures i >= 1
    ensures var ds := DigitsOf(siteId);
      (forall k :: 0 <= k < |ds| ==> ds[k] == '0') ==> i == 1
    ensures var ds := DigitsOf(siteId);
      (exists k :: 0 <= k < |ds| && ds[k] != '0') ==> i == DigitsValue(ds)
  {
    var ds := DigitsOf(siteId);
    DigitsValueZero(ds);
    var v := DigitsValue(ds);
    if v == 0 then 1 else v
  }

  /** The content chain of one mobile row. */
  function MobileCellOf(a: Option<Assignment>): (cell: MobileCell)
    ensures cell.SiteTag? ==> cell.colour < PaletteSize && cell.colour == (TagIndex(cell.siteId) - 1) % PaletteSize
  {
    if a.Some? && a.value.status == Assigned && Truthy(a.value.siteId) then
      var slot := ColourSlot(TagIndex(a.value.siteId.value));
      SiteTag(a.value.siteId.value, slot.value)
    else if a.Some? && a.value.status == Free then FreeBadge
    else if a.Some? && a.value.status == Off then OffBadge
    else if a.Some? && a.value.status == Leave then LeaveBadge
    else Dash
  }

  /** `days.map(...)`: one row per day, in order, looked up under `guardId_date`. */
  function GuardCardRows(cal: Calendar, g: Guard, days: seq<Day>, index: map<string, Assignment>): (rows: seq<MobileRow>)
    ensures |rows| == |days|
    ensures forall i :: 0 <= i < |days| ==> rows[i].dateKey == cal.toKey(days[i])
    ensures forall i :: 0 <= i < |days| ==> rows[i].cell == MobileCellOf(BoardGrid.RecordOf(cal, index, g.id, days[i]))
  {
    seq(|days|, i requires 0 <= i < |days| =>
      MobileRow(cal.toKey(days[i]), MobileCellOf(BoardGrid.RecordOf(cal, index, g.id, days[i]))))
  }

  /**
   * Each status has its own content; the dash stands for a missing record and
   * for an assigned record without a site; a site tag names the record's site
   * and one of the eight palette colours.
   */
  lemma MobileCellClassification(a: Option<Assignment>)
    ensures MobileCellOf(a) == Dash <==> a.None? || (a.value.status == Assigned && !Truthy(a.value.siteId))
    ensures MobileCellOf(a) == FreeBadge <==> a.Some? && a.value.status == Free
    ensures MobileCellOf(a) == OffBadge <==> a.Some? && a.value.status == Off
    ensures MobileCellOf(a) == LeaveBadge <==> a.Some? && a.value.status == Leave
    ensures MobileCellOf(a).SiteTag? ==>
      a.Some? && a.value.status == Assigned && a.value.siteId == Some(MobileCellOf(a).siteId)
      && MobileCellOf(a).colour < PaletteSize
  {
  }

  /**
   * The mobile card and the desktop row show the same record alike, except
   * that the desktop folds leave into the free badge and shows an assigned
   * record without a site as an empty cell rather than a dash.
   */
  lemma MobileAgreesWithDesk(sites: seq<Site>, a: Option<Assignment>)
    ensures (MobileCellOf(a) == FreeBadge || MobileCellOf(a) == LeaveBadge) <==> BoardGrid.RowCell(sites, a) == BoardGrid.FreeBadge
    ensures MobileCellOf(a) == OffBadge <==> BoardGrid.RowCell(sites, a) == BoardGrid.OffBadge
    ensures MobileCellOf(a).SiteTag? <==> BoardGrid.RowCell(sites, a).SiteName? || BoardGrid.RowCell(sites, a) == BoardGrid.MissingSite
    ensures MobileCellOf(a) == Dash <==> BoardGrid.RowCell(sites, a) == BoardGrid.Dash || BoardGrid.RowCell(sites, a) == BoardGrid.Blank
  {
    BoardGrid.RowCellClassification(sites, a);
    MobileCellClassification(a);
  }

  /** Distinct days give rows with distinct React keys. */
  lemma GuardCardKeysDistinct(cal: Calendar, g: Guard, days: seq<Day>, index: map<string, Assignment>, i: int, j: int)
    requires ValidCalendar(cal)
    requires 0 <= i < j < |days| && days[i] != days[j]
    ensures GuardCardRows(cal, g, days, index)[i].dateKey != GuardCardRows(cal, g, days, index)[j].dateKey
  {
  }

  /**
   * On generator output the card never shows a dash: every shown day of a
   * rostered guard has a record, and every assigned record names a site.
   */
  lemma GeneratedMobileCell(cal: Calendar, sites: seq<Site>, guards: seq<Guard>, start: Day, end: Day, j: int, d: Day)
    requires ValidCalendar(cal) && GuardIdsWellFormed(guards) && DistinctGuardIds(guards)
    requires |sites| > 0 && BoardGrid.SitesNamed(sites)
    requires start <= d <= end && 0 <= j < |guards|
    ensures var index := IndexOf(cal, Generate(cal, sites, guards, Days(start, end)));
      var cell := GuardCardRows(cal, guards[j], Days(start, end), index)[d - start].cell;
      cell != Dash && (cell == LeaveBadge <==> MockRecord(cal, sites, guards[j], d).status == Leave)
  {
    assert Days(start, end)[d - start] == d;
    GeneratedLookup(cal, sites, guards, start, end, j, d);
    MockRecordRule(cal, sites, guards[j], d);
  }

  /**
   * The colours of the two views disagree on the mock sites: "хан1" has tag
   * index 3 on the desktop but digit 1 on the mobile card, and "зайсан", with
   * no digits, falls back to 1.
   */
  lemma MobileColourDiffersFromDesk()
    ensures SITES[2].id == "хан1" && ColourSlot(SITES[2].tagIndex) == Some(2)
    ensures TagIndex(SITES[2].id) == 1 && ColourSlot(TagIndex(SITES[2].id)) == Some(0)
    ensures SITES[4].id == "зайсан" && ColourSlot(SITES[4].tagIndex) == Some(4)
    ensures TagIndex(SITES[4].id) == 1
  {
    assert DigitsOf("хан1") == "1";
    assert DigitsOf("зайсан") == "";
  }
}
