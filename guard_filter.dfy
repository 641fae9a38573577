/**
 * The guard filter (`filteredGuards`): guards whose lower-cased name contains
 * the trimmed, lower-cased query, and, unless the status tab is "all", who
 * have at least one record with the selected status inside the range.
 */
module GuardFilter {
  import opened Calendar
  import opened JsText
  import opened ScheduleTypes
  import opened MockData

  /** `Array.prototype.filter`: the kept elements, in their original order. */
  function Filter<T(!new)>(s: seq<T>, keep: T -> bool): (r: seq<T>)
    ensures |r| <= |s|
    ensures forall x :: x in r <==> x in s && keep(x)
    ensures forall x :: multiset(r)[x] == if keep(x) then multiset(s)[x] else 0
  {
    if s == [] then []
    else
      assert s == [s[0]] + s[1..];
      (if keep(s[0]) then [s[0]] else []) + Filter(s[1..], keep)
  }

  /** `a` is `b` with some elements left out, the rest in the same order. */
  predicate IsSubsequence<T(==)>(a: seq<T>, b: seq<T>)
    decreases |b|
  {
    if a == [] then true
    else if b == [] then false
    else (a[0] == b[0] && IsSubsequence(a[1..], b[1..])) || IsSubsequence(a, b[1..])
  }

  /** Filtering keeps the original order. */
  lemma {:induction false} FilterIsSubsequence<T(!new)>(s: seq<T>, keep: T -> bool)
    ensures IsSubsequence(Filter(s, keep), s)
  {
    if s != [] {
      FilterIsSubsequence(s[1..], keep);
      var rest := Filter(s[1..], keep);
      if keep(s[0]) {
        assert Filter(s, keep)[1..] == rest;
      } else {
        assert Filter(s, keep) == rest;
        SubsequenceOfTail(rest, s);
      }
    }
  }

  lemma SubsequenceOfTail<T>(a: seq<T>, b: seq<T>)
    requires b != [] && IsSubsequence(a, b[1..])
    ensures IsSubsequence(a, b)
  {
  }

  /** A filter that keeps everything returns the list unchanged. */
  lemma {:induction false} FilterKeepsAll<T(!new)>(s: seq<T>, keep: T -> bool)
    requires forall x :: x in s ==> keep(x)
    ensures Filter(s, keep) == s
  {
    if s != [] {
      FilterKeepsAll(s[1..], keep);
    }
  }

  /** The status tabs: "all", "free" and "off". */
  datatype StatusFilter = All | OnlyFree | OnlyOff

  function Selected(sf: StatusFilter): Status
    requires sf != All
  {
    if sf == OnlyFree then Free else Off
  }

  /** `query.trim().toLowerCase()`. */
  function NormalizedQuery(query: string): string {
    ToLower(Trim(query))
  }

  /** `g.name.toLowerCase().includes(q)`. */
  predicate NameMatches(g: Guard, q: string) {
    Includes(ToLower(g.name), q)
  }

  /** The text-filtered list `GUARDS.filter((g) => g.name.toLowerCase().includes(q))`. */
  function TextFiltered(guards: seq<Guard>, query: string): (r: seq<Guard>)
    ensures forall g :: g in r <==> g in guards && NameMatches(g, NormalizedQuery(query))
    ensures forall g :: multiset(r)[g] == if NameMatches(g, NormalizedQuery(query)) then multiset(guards)[g] else 0
  {
    var q := NormalizedQuery(query);
    Filter(guards, g => NameMatches(g, q))
  }

  /** Range membership, compared as day numbers. */
  predicate InRange(d: Day, start: Day, end: Day) {
    start <= d <= end
  }

  /** The range test means exactly "one of the board's columns". */
  lemma InRangeMeansListed(d: Day, start: Day, end: Day)
    requires start <= end
    ensures InRange(d, start, end) <==> d in Days(start, end)
  {
    DaysMembership(start, end, d);
  }

  const MinutesPerDay: int := 1440

  /**
   * The range test as written, `isWithinInterval(new Date(a.date), {start, end})`,
   * in minutes since the epoch. `new Date("yyyy-MM-dd")` is midnight UTC. The
   * bounds are the local days `start` and `end` at `minute` minutes past local
   * midnight: 0 for days from the picker, the clock's time of day for days the
   * buttons or the default derive from `new Date()`. `offset` is the local
   * zone's offset east of UTC, in minutes.
   */
  predicate WithinIntervalAsWritten(d: Day, start: Day, end: Day, offset: int, minute: int) {
    var t := d * MinutesPerDay;
    start * MinutesPerDay + minute - offset <= t <= end * MinutesPerDay + minute - offset
  }

  /** With picker bounds east of UTC the written test drops the range's last day. */
  lemma WithinIntervalEastOfUtc(d: Day, start: Day, end: Day, offset: int)
    requires 0 < offset < MinutesPerDay
    ensures WithinIntervalAsWritten(d, start, end, offset, 0) <==> start <= d < end
  {
  }

  /** With picker bounds west of UTC the written test drops the range's first day. */
  lemma WithinIntervalWestOfUtc(d: Day, start: Day, end: Day, offset: int)
    requires -MinutesPerDay < offset < 0
    ensures WithinIntervalAsWritten(d, start, end, offset, 0) <==> start < d <= end
  {
  }

  /** With picker bounds, only at UTC does the written test agree with day-number comparison. */
  lemma WithinIntervalAtUtc(d: Day, start: Day, end: Day)
    ensures WithinIntervalAsWritten(d, start, end, 0, 0) <==> InRange(d, start, end)
  {
  }

  /**
   * With bounds taken from the clock (no range, "from today 7", or
   * "previous"/"next" stepped from such a range), even at UTC any time of
   * day after midnight drops the range's first day.
   */
  lemma WithinIntervalFromClock(d: Day, start: Day, end: Day, minute: int)
    requires 0 < minute < MinutesPerDay
    ensures WithinIntervalAsWritten(d, start, end, 0, minute) <==> start < d <= end
  {
  }

  /** `allAssignments.some(...)` for one guard and one status. */
  predicate HasStatusInRange(assignments: seq<Assignment>, id: string, s: Status, start: Day, end: Day)
    ensures HasStatusInRange(assignments, id, s, start, end) ==> start <= end && assignments != []
  {
    exists a :: a in assignments && a.guardId == id && a.status == s && InRange(a.date, start, end)
  }

  /** `filteredGuards`. */
  function FilteredGuards(guards: seq<Guard>, query: string, sf: StatusFilter,
                          assignments: seq<Assignment>, start: Day, end: Day): (r: seq<Guard>)
    ensures forall g :: g in r <==>
      && g in guards
      && NameMatches(g, NormalizedQuery(query))
      && (sf == All || HasStatusInRange(assignments, g.id, Selected(sf), start, end))
    ensures sf == All ==> r == TextFiltered(guards, query)
  {
    var list := TextFiltered(guards, query);
    if sf == All then list
    else Filter(list, (g: Guard) => HasStatusInRange(assignments, g.id, Selected(sf), start, end))
  }

  /** The filtered list keeps the roster's order. */
  lemma FilteredIsSubsequence(guards: seq<Guard>, query: string, sf: StatusFilter,
                              assignments: seq<Assignment>, start: Day, end: Day)
    ensures IsSubsequence(FilteredGuards(guards, query, sf, assignments, start, end), guards)
  {
    var q := NormalizedQuery(query);
    var list := TextFiltered(guards, query);
    FilterIsSubsequence(guards, g => NameMatches(g, q));
    if sf != All {
      var keep := (g: Guard) => HasStatusInRange(assignments, g.id, Selected(sf), start, end);
      FilterIsSubsequence(list, keep);
      SubsequenceTransitive(Filter(list, keep), list, guards);
    }
  }

  lemma {:induction false} SubsequenceTransitive<T>(a: seq<T>, b: seq<T>, c: seq<T>)
    requires IsSubsequence(a, b) && IsSubsequence(b, c)
    ensures IsSubsequence(a, c)
    decreases |c|
  {
    if a != [] {
      if IsSubsequence(b, c[1..]) {
        SubsequenceTransitive(a, b, c[1..]);
      } else if a[0] == b[0] && IsSubsequence(a[1..], b[1..]) {
        SubsequenceTransitive(a[1..], b[1..], c[1..]);
      } else {
        SubsequenceTransitive(a, b[1..], c[1..]);
      }
    }
  }

  /** The query is case-insensitive: lower-casing it first changes nothing. */
  lemma QueryCaseInsensitive(guards: seq<Guard>, query: string)
    ensures TextFiltered(guards, ToLower(query)) == TextFiltered(guards, query)
  {
    TrimToLower(query);
    ToLowerIdempotent(Trim(query));
    assert NormalizedQuery(ToLower(query)) == NormalizedQuery(query);
  }

  /**
   * On generator output a status tab keeps a guard exactly when the status
   * rule gives that status on some day of the range.
   */
  lemma GeneratedStatusFilter(cal: Calendar, sites: seq<Site>, guards: seq<Guard>, start: Day, end: Day, j: int, s: Status)
    requires ValidCalendar(cal) && GuardIdsWellFormed(guards) && DistinctGuardIds(guards) && |sites| > 0
    requires start <= end && 0 <= j < |guards|
    ensures HasStatusInRange(Generate(cal, sites, guards, Days(start, end)), guards[j].id, s, start, end)
        <==> exists d :: start <= d <= end && MockRecord(cal, sites, guards[j], d).status == s
  {
    if HasStatusInRange(Generate(cal, sites, guards, Days(start, end)), guards[j].id, s, start, end) {
      var d := GeneratedStatusDay(cal, sites, guards, start, end, j, s);
    }
    if exists d :: start <= d <= end && MockRecord(cal, sites, guards[j], d).status == s {
      var d :| start <= d <= end && MockRecord(cal, sites, guards[j], d).status == s;
      GeneratedStatusRecord(cal, sites, guards, start, end, j, d);
    }
  }

  lemma GeneratedStatusDay(cal: Calendar, sites: seq<Site>, guards: seq<Guard>, start: Day, end: Day, j: int, s: Status)
    returns (d: Day)
    requires ValidCalendar(cal) && GuardIdsWellFormed(guards) && DistinctGuardIds(guards) && |sites| > 0
    requires start <= end && 0 <= j < |guards|
    requires HasStatusInRange(Generate(cal, sites, guards, Days(start, end)), guards[j].id, s, start, end)
    ensures start <= d <= end && MockRecord(cal, sites, guards[j], d).status == s
  {
    var days := Days(start, end);
    var rs := Generate(cal, sites, guards, days);
    var a :| a in rs && a.guardId == guards[j].id && a.status == s && InRange(a.date, start, end);
    var p :| 0 <= p < |rs| && rs[p] == a;
    var i, j' := GenerateOrigin(cal, sites, guards, days, p);
    MockRecordRule(cal, sites, guards[j'], days[i]);
    assert guards[j'].id == guards[j].id;
    d := days[i];
  }

  lemma GeneratedStatusRecord(cal: Calendar, sites: seq<Site>, guards: seq<Guard>, start: Day, end: Day, j: int, d: Day)
    requires ValidCalendar(cal) && GuardIdsWellFormed(guards) && |sites| > 0
    requires start <= d <= end && 0 <= j < |guards|
    ensures HasStatusInRange(Generate(cal, sites, guards, Days(start, end)), guards[j].id,
                             MockRecord(cal, sites, guards[j], d).status, start, end)
  {
    var days := Days(start, end);
    var rs := Generate(cal, sites, guards, days);
    var p := GeneratedRecordFor(cal, sites, guards, start, end, j, d);
    var a := rs[p];
    MockRecordRule(cal, sites, guards[j], d);
    assert a in rs && InRange(a.date, start, end);
  }

  /** A blank query (empty or only whitespace) keeps every guard. */
  lemma BlankQueryKeepsAll(guards: seq<Guard>, query: string)
    requires forall k :: 0 <= k < |query| ==> IsJsWhitespace(query[k])
    ensures TextFiltered(guards, query) == guards
  {
    TrimBlank(query);
    var q := NormalizedQuery(query);
    assert q == "";
    forall g | g in guards ensures NameMatches(g, q) {
      IncludesEmpty(ToLower(g.name));
    }
    FilterKeepsAll(guards, g => NameMatches(g, q));
  }
}
