/** The fold of one geo bucket (backend/app/geo/fold.py) and the rows stored for it
    (`_bucket_rows` in backend/app/collectors/geo_collector.py). */
module GeoFold {
  import opened Wrappers
  import opened Sorting
  import opened Tally
  import opened KeyedSearch

  datatype KeyKind = Country(code: string) | Unresolved | Unparseable

  /** What a raw key means; reading the key's JSON text is left to the caller. */
  type Classifier = Option<string> -> KeyKind

  datatype Fact = Fact(countries: seq<Entry>, unresolved: nat, overCap: nat, unparseable: nat, unparseableKeys: nat)

  /** The (code, events) of a row that names a country. */
  function Named(row: Row, classify: Classifier): seq<Entry> {
    match classify(row.key)
    case Country(code) => [Entry(code, row.events)]
    case _ => []
  }

  function CountryRows(rows: seq<Row>, classify: Classifier): seq<Entry> {
    if |rows| == 0 then [] else CountryRows(rows[..|rows| - 1], classify) + Named(rows[|rows| - 1], classify)
  }

  function RowEvents(): Row -> int { (row: Row) => row.events }

  function EventsIf(row: Row, classify: Classifier, kind: KeyKind): nat {
    if classify(row.key) == kind then row.events else 0
  }

  /** The events of the rows of one kind. */
  function OfKind(classify: Classifier, kind: KeyKind): Row -> int {
    (row: Row) => EventsIf(row, classify, kind)
  }

  /** The distinct raw keys that mean nothing, a missing one counting as the empty text. */
  function BadKeys(rows: seq<Row>, classify: Classifier): set<string> {
    set row <- rows | classify(row.key).Unparseable? :: KeyText(row)
  }

  function KeyText(row: Row): string { if row.key.Some? then row.key.value else "" }

  ghost function Folded(rows: seq<Row>, classify: Classifier, maxCountries: nat): Fact {
    var ordered := Sort(Tallied(CountryRows(rows, classify)), BusiestFirst);
    var kept := if |ordered| <= maxCountries then |ordered| else maxCountries;
    SumOfNaturals(ordered[kept..], CountOfEntry());
    SumOfNaturals(rows, OfKind(classify, Unresolved));
    SumOfNaturals(rows, OfKind(classify, Unparseable));
    Fact(ordered[..kept], Sum(rows, OfKind(classify, Unresolved)), Sum(ordered[kept..], CountOfEntry()),
         Sum(rows, OfKind(classify, Unparseable)), |BadKeys(rows, classify)|)
  }

  function FactEvents(f: Fact): int {
    Sum(f.countries, CountOfEntry()) + f.unresolved + f.overCap + f.unparseable
  }

  lemma {:induction false} KindsAddUp(rows: seq<Row>, classify: Classifier)
    ensures Sum(rows, RowEvents()) == Sum(CountryRows(rows, classify), CountOfEntry())
      + Sum(rows, OfKind(classify, Unresolved)) + Sum(rows, OfKind(classify, Unparseable))
  {
    if |rows| > 0 {
      var init, last := rows[..|rows| - 1], rows[|rows| - 1];
      assert rows == init + [last];
      KindsAddUp(init, classify);
      SumConcat(init, [last], RowEvents());
      SumConcat(init, [last], OfKind(classify, Unresolved));
      SumConcat(init, [last], OfKind(classify, Unparseable));
      SumConcat(CountryRows(init, classify), Named(last, classify), CountOfEntry());
    }
  }

  /** The cap loses no event: the parts of the fact sum to the events of the rows. */
  lemma FoldConserves(rows: seq<Row>, classify: Classifier, maxCountries: nat)
    ensures FactEvents(Folded(rows, classify, maxCountries)) == Sum(rows, RowEvents())
    ensures |Folded(rows, classify, maxCountries).countries| <= maxCountries
  {
    hide Sort, Tallied, CountryRows, Sum, BusiestFirst;
    var tally := Tallied(CountryRows(rows, classify));
    var ordered := Sort(tally, BusiestFirst);
    var kept := if |ordered| <= maxCountries then |ordered| else maxCountries;
    KindsAddUp(rows, classify);
    TalliedFacts(CountryRows(rows, classify));
    SortPermutes(tally, BusiestFirst);
    SumPermutes(ordered, tally, CountOfEntry());
    assert ordered == ordered[..kept] + ordered[kept..];
    SumConcat(ordered[..kept], ordered[kept..], CountOfEntry());
  }

  ghost function Gives(e: Entry, classify: Classifier): Row -> bool { (row: Row) => Named(row, classify) == [e] }

  lemma {:induction false} CountryRowsCount(rows: seq<Row>, classify: Classifier, e: Entry)
    ensures multiset(CountryRows(rows, classify))[e] == Count(rows, Gives(e, classify))
  {
    if |rows| > 0 {
      var init, last := rows[..|rows| - 1], rows[|rows| - 1];
      assert rows == init + [last];
      CountryRowsCount(init, classify, e);
      CountConcat(init, [last], Gives(e, classify));
    }
  }

  lemma CountryRowsPermute(a: seq<Row>, b: seq<Row>, classify: Classifier)
    requires multiset(a) == multiset(b)
    ensures multiset(CountryRows(a, classify)) == multiset(CountryRows(b, classify))
  {
    forall e ensures multiset(CountryRows(a, classify))[e] == multiset(CountryRows(b, classify))[e] {
      CountryRowsCount(a, classify, e);
      CountryRowsCount(b, classify, e);
      CountPermutes(a, b, Gives(e, classify));
    }
  }

  /** The fold does not depend on the order of the rows. */
  lemma FoldForgetsOrder(a: seq<Row>, b: seq<Row>, classify: Classifier, maxCountries: nat)
    requires multiset(a) == multiset(b)
    ensures Folded(a, classify, maxCountries) == Folded(b, classify, maxCountries)
  {
    CountryRowsPermute(a, b, classify);
    RankingForgetsOrder(CountryRows(a, classify), CountryRows(b, classify));
    SumPermutes(a, b, OfKind(classify, Unresolved));
    SumPermutes(a, b, OfKind(classify, Unparseable));
    BadKeysPermute(a, b, classify);
  }

  lemma BadKeysPermute(a: seq<Row>, b: seq<Row>, classify: Classifier)
    requires multiset(a) == multiset(b)
    ensures BadKeys(a, classify) == BadKeys(b, classify)
  {
    forall row: Row ensures row in a <==> row in b {
      assert row in a <==> row in multiset(a);
      assert row in b <==> row in multiset(b);
    }
  }

  lemma CountOneMore(rows: seq<Row>, n: nat, classify: Classifier)
    requires n < |rows|
    ensures Sum(rows[..n + 1], OfKind(classify, Unresolved))
         == Sum(rows[..n], OfKind(classify, Unresolved)) + EventsIf(rows[n], classify, Unresolved)
    ensures Sum(rows[..n + 1], OfKind(classify, Unparseable))
         == Sum(rows[..n], OfKind(classify, Unparseable)) + EventsIf(rows[n], classify, Unparseable)
    ensures BadKeys(rows[..n + 1], classify) == BadKeys(rows[..n], classify)
         + if classify(rows[n].key).Unparseable? then {KeyText(rows[n])} else {}
    ensures Tallied(CountryRows(rows[..n + 1], classify))
         == match classify(rows[n].key)
            case Country(code) => Add(Tallied(CountryRows(rows[..n], classify)), code, rows[n].events)
            case _ => Tallied(CountryRows(rows[..n], classify))
  {
    hide Tallied, Add, Sum, EventsIf;
    var before, row := rows[..n], rows[n];
    assert rows[..n + 1] == before + [row] && rows[..n + 1][..n] == before;
    KindOneMore(before, row, classify, Unresolved);
    KindOneMore(before, row, classify, Unparseable);
    assert CountryRows(rows[..n + 1], classify) == CountryRows(before, classify) + Named(row, classify);
    match classify(row.key)
    case Country(code) => TalliedSnoc(CountryRows(before, classify), Entry(code, row.events));
    case _ => assert CountryRows(before, classify) + [] == CountryRows(before, classify);
  }

  lemma KindOneMore(before: seq<Row>, row: Row, classify: Classifier, kind: KeyKind)
    ensures Sum(before + [row], OfKind(classify, kind)) == Sum(before, OfKind(classify, kind)) + EventsIf(row, classify, kind)
  {
    SumConcat(before, [row], OfKind(classify, kind));
    assert [row][1..] == [];
  }

  /** The counting loop, then the cap. */
  method FoldBucket(rows: seq<Row>, classify: Classifier, maxCountries: nat) returns (fact: Fact)
    requires maxCountries >= 1
    ensures fact == Folded(rows, classify, maxCountries)
  {
    var perCode: seq<Entry> := [];
    var unresolved, unparseable, badKeys := 0, 0, {};
    for n := 0 to |rows|
      invariant perCode == Tallied(CountryRows(rows[..n], classify))
      invariant unresolved == Sum(rows[..n], OfKind(classify, Unresolved))
      invariant unparseable == Sum(rows[..n], OfKind(classify, Unparseable))
      invariant badKeys == BadKeys(rows[..n], classify)
    {
      hide Tallied, CountryRows, Add, Sum, BadKeys;
      var row := rows[n];
      CountOneMore(rows, n, classify);
      match classify(row.key)
      case Unresolved => unresolved := unresolved + row.events;
      case Unparseable =>
        unparseable := unparseable + row.events;
        badKeys := badKeys + {KeyText(row)};
      case Country(code) => perCode := Add(perCode, code, row.events);
    }
    assert rows[..|rows|] == rows;
    SumOfNaturals(rows, OfKind(classify, Unresolved));
    SumOfNaturals(rows, OfKind(classify, Unparseable));
    var ordered := Sort(perCode, BusiestFirst);
    var kept := if |ordered| <= maxCountries then |ordered| else maxCountries;
    SumOfNaturals(ordered[kept..], CountOfEntry());
    fact := Fact(ordered[..kept], unresolved, Sum(ordered[kept..], CountOfEntry()), unparseable, |badKeys|);
  }

  // -------------------------------------------------------------- stored rows

  /** What a stored row is about; one row per slot and bucket. */
  datatype Slot = OfCountry(code: string) | Remainder(kind: RemainderKind)

  datatype RemainderKind = UnresolvedRest | OverCapRest | UnparseableRest

  datatype StoredRow = StoredRow(slot: Slot, events: nat, lowerBound: bool)

  function StoredEvents(): StoredRow -> int { (row: StoredRow) => row.events }

  function CountryStored(countries: seq<Entry>, lowerBound: bool): (rows: seq<StoredRow>)
    ensures |rows| == |countries|
    ensures forall i :: 0 <= i < |rows| ==> rows[i] == StoredRow(OfCountry(countries[i].name), countries[i].count, lowerBound)
  {
    seq(|countries|, i requires 0 <= i < |countries| =>
      StoredRow(OfCountry(countries[i].name), countries[i].count, lowerBound))
  }

  /** Only remainders that hold events are stored; an empty bucket is stored as UNRESOLVED zero. */
  function RemainderRow(kind: RemainderKind, events: nat, lowerBound: bool, before: seq<StoredRow>): seq<StoredRow> {
    if events > 0 || (kind == UnresolvedRest && before == []) then before + [StoredRow(Remainder(kind), events, lowerBound)]
    else before
  }

  /** What is stored for a bucket, in storage order. */
  function BucketRows(fact: Fact, lowerBound: bool): seq<StoredRow> {
    var countries := CountryStored(fact.countries, lowerBound);
    var unresolved := RemainderRow(UnresolvedRest, fact.unresolved, lowerBound, countries);
    var overCap := RemainderRow(OverCapRest, fact.overCap, lowerBound, unresolved);
    RemainderRow(UnparseableRest, fact.unparseable, lowerBound, overCap)
  }

  lemma {:induction false} CountriesStoreTheirEvents(countries: seq<Entry>, lowerBound: bool)
    ensures Sum(CountryStored(countries, lowerBound), StoredEvents()) == Sum(countries, CountOfEntry())
  {
    if |countries| > 0 {
      CountriesStoreTheirEvents(countries[1..], lowerBound);
      assert CountryStored(countries, lowerBound)[1..] == CountryStored(countries[1..], lowerBound);
    }
  }

  lemma RemainderAdds(kind: RemainderKind, events: nat, lowerBound: bool, before: seq<StoredRow>)
    ensures Sum(RemainderRow(kind, events, lowerBound, before), StoredEvents()) == Sum(before, StoredEvents()) + events
  {
    var row := StoredRow(Remainder(kind), events, lowerBound);
    SumConcat(before, [row], StoredEvents());
    assert [row][1..] == [];
  }

  ghost predicate DistinctSlots(rows: seq<StoredRow>) {
    forall i, j :: 0 <= i < j < |rows| ==> rows[i].slot != rows[j].slot
  }

  /** One row per slot, and none yet for the remainders from `kind` on. */
  ghost predicate DistinctBefore(rows: seq<StoredRow>, kinds: set<RemainderKind>) {
    DistinctSlots(rows) && forall i :: 0 <= i < |rows| && rows[i].slot.Remainder? ==> rows[i].slot.kind !in kinds
  }

  lemma RemainderIsDistinct(kind: RemainderKind, events: nat, lowerBound: bool, before: seq<StoredRow>, kinds: set<RemainderKind>)
    requires kind in kinds && DistinctBefore(before, kinds)
    ensures DistinctBefore(RemainderRow(kind, events, lowerBound, before), kinds - {kind})
  {
  }

  /** A measured bucket always stores at least one row, one row per slot, and every event of it. */
  lemma BucketRowsKeepTheBucket(rows: seq<Row>, classify: Classifier, maxCountries: nat, lowerBound: bool)
    ensures var stored := BucketRows(Folded(rows, classify, maxCountries), lowerBound);
            1 <= |stored| <= maxCountries + 3 && Sum(stored, StoredEvents()) == Sum(rows, RowEvents())
    ensures DistinctSlots(BucketRows(Folded(rows, classify, maxCountries), lowerBound))
  {
    var fact := Folded(rows, classify, maxCountries);
    FoldConserves(rows, classify, maxCountries);
    CountriesAreDistinct(rows, classify, maxCountries);
    hide Folded, Sum;
    var countries := CountryStored(fact.countries, lowerBound);
    var unresolved := RemainderRow(UnresolvedRest, fact.unresolved, lowerBound, countries);
    var overCap := RemainderRow(OverCapRest, fact.overCap, lowerBound, unresolved);
    CountriesStoreTheirEvents(fact.countries, lowerBound);
    RemainderAdds(UnresolvedRest, fact.unresolved, lowerBound, countries);
    RemainderAdds(OverCapRest, fact.overCap, lowerBound, unresolved);
    RemainderAdds(UnparseableRest, fact.unparseable, lowerBound, overCap);
    var all := {UnresolvedRest, OverCapRest, UnparseableRest};
    RemainderIsDistinct(UnresolvedRest, fact.unresolved, lowerBound, countries, all);
    RemainderIsDistinct(OverCapRest, fact.overCap, lowerBound, unresolved, all - {UnresolvedRest});
    RemainderIsDistinct(UnparseableRest, fact.unparseable, lowerBound, overCap, all - {UnresolvedRest} - {OverCapRest});
  }

  lemma CountriesAreDistinct(rows: seq<Row>, classify: Classifier, maxCountries: nat)
    ensures DistinctNames(Folded(rows, classify, maxCountries).countries)
  {
    var tally := Tallied(CountryRows(rows, classify));
    var ordered := Sort(tally, BusiestFirst);
    TalliedFacts(CountryRows(rows, classify));
    SortPermutes(tally, BusiestFirst);
    forall i, j | 0 <= i < j < |ordered| ensures ordered[i].name != ordered[j].name {
      TwoOfSorted(tally, ordered, i, j);
    }
  }

  /** Two places of a rearrangement hold two places of the original. */
  lemma TwoOfSorted(tally: seq<Entry>, ordered: seq<Entry>, i: nat, j: nat)
    requires multiset(tally) == multiset(ordered) && DistinctNames(tally) && i < j < |ordered|
    ensures ordered[i].name != ordered[j].name
  {
    var x, y := ordered[i], ordered[j];
    assert x in multiset(tally) && y in multiset(tally);
    DistinctOnce(tally, x);
    if x == y {
      TwiceCounts(ordered, i, j);
      assert false;
    }
    var a :| 0 <= a < |tally| && tally[a] == x;
    var b :| 0 <= b < |tally| && tally[b] == y;
    assert a != b;
  }
}
