/**
 * The guard-day index (`assignmentsByKey`): a `Map` from `guardId_date` to the
 * record, filled by one pass over the records in which a later record with
 * the same key replaces an earlier one.
 */
module AssignmentIndex {
  import opened Wrappers
  import opened Calendar
  import opened ScheduleTypes
  import opened MockData

  /** The map after `map.set(key(a), a)` for every record, in order. */
  function IndexOf(cal: Calendar, rs: seq<Assignment>): (index: map<string, Assignment>)
    ensures forall k :: k in index ==> index[k] in rs && RecordKey(cal, index[k]) == k
  {
    if rs == [] then map[]
    else
      var n := |rs| - 1;
      IndexOf(cal, rs[..n])[RecordKey(cal, rs[n]) := rs[n]]
  }

  /** The `assignmentsByKey` loop. */
  method BuildIndex(cal: Calendar, rs: seq<Assignment>) returns (index: map<string, Assignment>)
    ensures index == IndexOf(cal, rs)
  {
    index := map[];
    for i := 0 to |rs|
      invariant index == IndexOf(cal, rs[..i])
    {
      var a := rs[i];
      index := index[Key(cal, a.guardId, a.date) := a];
      assert rs[..i + 1][..i] == rs[..i];
    }
    assert rs[..|rs|] == rs;
  }

  /** The keys of a list of records. */
  function RecordKeys(cal: Calendar, rs: seq<Assignment>): set<string> {
    set a | a in rs :: RecordKey(cal, a)
  }

  /** The index holds exactly the records' keys. */
  lemma {:induction false} IndexKeys(cal: Calendar, rs: seq<Assignment>)
    ensures IndexOf(cal, rs).Keys == RecordKeys(cal, rs)
  {
    if rs != [] {
      var n := |rs| - 1;
      IndexKeys(cal, rs[..n]);
      assert rs == rs[..n] + [rs[n]];
      assert forall a :: a in rs <==> a in rs[..n] || a == rs[n];
      assert RecordKeys(cal, rs) == RecordKeys(cal, rs[..n]) + {RecordKey(cal, rs[n])};
    }
  }

  /** Last write wins: a record that no later record shares a key with is what its key maps to. */
  lemma {:induction false} IndexLastWins(cal: Calendar, rs: seq<Assignment>, p: int)
    requires 0 <= p < |rs|
    requires forall q :: p < q < |rs| ==> RecordKey(cal, rs[q]) != RecordKey(cal, rs[p])
    ensures RecordKey(cal, rs[p]) in IndexOf(cal, rs)
    ensures IndexOf(cal, rs)[RecordKey(cal, rs[p])] == rs[p]
  {
    var n := |rs| - 1;
    if p < n {
      var prefix := rs[..n];
      forall q | p < q < |prefix| ensures RecordKey(cal, prefix[q]) != RecordKey(cal, prefix[p]) {
        assert prefix[q] == rs[q];
      }
      IndexLastWins(cal, prefix, p);
      assert prefix[p] == rs[p];
    }
  }

  /** Roster identifiers never contain the key separator. */
  lemma GuardIdHasNoSeparator(id: string)
    requires WellFormedGuardId(id)
    ensures '_' !in id
  {
  }

  /** No two records share a key. */
  predicate UniqueKeys(cal: Calendar, rs: seq<Assignment>) {
    forall p, q :: 0 <= p < q < |rs| ==> RecordKey(cal, rs[p]) != RecordKey(cal, rs[q])
  }

  /** Generator output has no two records under one key. */
  lemma GeneratedKeysUnique(cal: Calendar, sites: seq<Site>, guards: seq<Guard>, start: Day, end: Day)
    requires ValidCalendar(cal) && GuardIdsWellFormed(guards) && DistinctGuardIds(guards) && |sites| > 0
    requires start <= end
    ensures UniqueKeys(cal, Generate(cal, sites, guards, Days(start, end)))
  {
    var days := Days(start, end);
    var rs := Generate(cal, sites, guards, days);
    DaysDistinct(start, end);
    GenerateUniquePairs(cal, sites, guards, days);
    forall p, q | 0 <= p < q < |rs| ensures RecordKey(cal, rs[p]) != RecordKey(cal, rs[q]) {
      RecordIdWellFormed(cal, sites, guards, days, p);
      RecordIdWellFormed(cal, sites, guards, days, q);
      GuardIdHasNoSeparator(rs[p].guardId);
      GuardIdHasNoSeparator(rs[q].guardId);
      if RecordKey(cal, rs[p]) == RecordKey(cal, rs[q]) {
        KeyInjective(cal, rs[p].guardId, rs[p].date, rs[q].guardId, rs[q].date);
      }
    }
  }

  /**
   * On generator output every guard-day cell of the range finds its own
   * record: the lookup under `guardId_date` returns what the generator made
   * for that guard and day.
   */
  lemma GeneratedLookup(cal: Calendar, sites: seq<Site>, guards: seq<Guard>, start: Day, end: Day, j: int, d: Day)
    requires ValidCalendar(cal) && GuardIdsWellFormed(guards) && DistinctGuardIds(guards) && |sites| > 0
    requires start <= d <= end && 0 <= j < |guards|
    ensures Get(IndexOf(cal, Generate(cal, sites, guards, Days(start, end))), Key(cal, guards[j].id, d))
         == Some(MockRecord(cal, sites, guards[j], d))
  {
    var p := GeneratedRecordFor(cal, sites, guards, start, end, j, d);
    MockRecordRule(cal, sites, guards[j], d);
    GeneratedIndexAt(cal, sites, guards, start, end, p);
  }

  /** On generator output, every record is what its own key maps to. */
  lemma GeneratedIndexAt(cal: Calendar, sites: seq<Site>, guards: seq<Guard>, start: Day, end: Day, p: int)
    requires ValidCalendar(cal) && GuardIdsWellFormed(guards) && DistinctGuardIds(guards) && |sites| > 0
    requires start <= end && 0 <= p < |Generate(cal, sites, guards, Days(start, end))|
    ensures var rs := Generate(cal, sites, guards, Days(start, end));
      Get(IndexOf(cal, rs), RecordKey(cal, rs[p])) == Some(rs[p])
  {
    GeneratedKeysUnique(cal, sites, guards, start, end);
    IndexUniqueKeys(cal, Generate(cal, sites, guards, Days(start, end)), p);
  }

  /** With pairwise distinct keys, every record is what its own key maps to. */
  lemma IndexUniqueKeys(cal: Calendar, rs: seq<Assignment>, p: int)
    requires UniqueKeys(cal, rs)
    requires 0 <= p < |rs|
    ensures Get(IndexOf(cal, rs), RecordKey(cal, rs[p])) == Some(rs[p])
  {
    IndexLastWins(cal, rs, p);
  }

  /** Every generated record carries a roster-shaped identifier. */
  lemma {:induction false} RecordIdWellFormed(cal: Calendar, sites: seq<Site>, guards: seq<Guard>, days: seq<Day>, p: int)
    requires ValidCalendar(cal) && GuardIdsWellFormed(guards) && |sites| > 0
    requires 0 <= p < |Generate(cal, sites, guards, days)|
    ensures WellFormedGuardId(Generate(cal, sites, guards, days)[p].guardId)
  {
    var n := |days| - 1;
    var prefix := Generate(cal, sites, guards, days[..n]);
    DayRecordsAt(cal, sites, guards, days[n]);
    if p < |prefix| {
      RecordIdWellFormed(cal, sites, guards, days[..n], p);
    }
  }
}
