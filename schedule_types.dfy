/**
 * The board's records (`Site`, `Guard`, `AssignmentStatus`, `Assignment`), the
 * `guardId_date` lookup key and the eight-colour site palette shared by the
 * desktop grid and the mobile guard card.
 */
module ScheduleTypes {
  import opened Wrappers
  import opened Calendar

  datatype Status = Assigned | Free | Off | Leave

  datatype Guard = Guard(id: string, name: string, phone: Option<string>)

  /** `capacity` is read only by the mobile site card, as `site.capacity ?? 1`. */
  datatype Site = Site(id: string, name: string, tagIndex: int, capacity: Option<nat>)

  /** One guard on one day; `date` is the day the `yyyy-MM-dd` string names. */
  datatype Assignment = Assignment(guardId: string, date: Day, status: Status, siteId: Option<string>)

  /** The map key `${id}_${toKey(day)}`. */
  function Key(cal: Calendar, id: string, day: Day): string {
    id + "_" + cal.toKey(day)
  }

  function RecordKey(cal: Calendar, a: Assignment): string {
    Key(cal, a.guardId, a.date)
  }

  /** The position of the first underscore of `s`, or `|s|` when there is none. */
  function FirstUnderscore(s: string): (i: nat)
    ensures i <= |s|
  {
    if s == [] || s[0] == '_' then 0 else 1 + FirstUnderscore(s[1..])
  }

  /** In a key, the first underscore is the one that follows the identifier. */
  lemma {:induction false} KeySplit(id: string, rest: string)
    requires '_' !in id
    ensures FirstUnderscore(id + "_" + rest) == |id|
  {
    if id != [] {
      assert (id + "_" + rest)[1..] == id[1..] + "_" + rest;
      KeySplit(id[1..], rest);
    }
  }

  /**
   * Keys are unique: for identifiers without an underscore the key determines
   * both the identifier and the day.
   */
  lemma KeyInjective(cal: Calendar, id1: string, d1: Day, id2: string, d2: Day)
    requires ValidCalendar(cal)
    requires '_' !in id1 && '_' !in id2
    requires Key(cal, id1, d1) == Key(cal, id2, d2)
    ensures id1 == id2 && d1 == d2
  {
    var k := Key(cal, id1, d1);
    KeySplit(id1, cal.toKey(d1));
    KeySplit(id2, cal.toKey(d2));
    assert id1 == k[..|id1|] == id2;
    assert cal.toKey(d1) == k[|id1| + 1..] == cal.toKey(d2);
  }

  /** `map.get(key)` on a JavaScript `Map`, `undefined` when the key is missing. */
  function Get<V>(m: map<string, V>, key: string): (r: Option<V>)
    ensures r.Some? <==> key in m
    ensures r.Some? ==> r.value == m[key]
  {
    if key in m then Some(m[key]) else None
  }

  /** A JavaScript string value that is present and not empty. */
  predicate Truthy(s: Option<string>) {
    s.Some? && s.value != ""
  }

  const PaletteSize: nat := 8

  /**
   * JavaScript's `a % 8`: it truncates toward zero, so the remainder takes the
   * sign of `a` (a zero remainder counts as 0 whatever its sign).
   */
  function JsRemPalette(a: int): (r: int)
    ensures -8 < r < 8 && (a - r) % 8 == 0
    ensures a >= 0 ==> r >= 0
    ensures a < 0 ==> r <= 0
  {
    if a >= 0 then a % 8 else -((-a) % 8)
  }

  /**
   * `siteColorClass(i)`: the palette entry `map[(i - 1) % 8]`, or `None` where
   * that index is negative and the lookup yields `undefined`.
   */
  function ColourSlot(i: int): (slot: Option<nat>)
    ensures slot.Some? <==> i >= 1 || (i - 1) % PaletteSize == 0
    ensures slot.Some? ==> slot.value < PaletteSize && slot.value == (i - 1) % PaletteSize
  {
    var r := JsRemPalette(i - 1);
    if r >= 0 then Some(r) else None
  }
}
