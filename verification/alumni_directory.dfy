/** The client's mock directory source, `getMany`: five optional filters on
    a copy of the built-in alumni list, then one page of the result and the
    total count. */
module AlumniDirectory {
  import opened Base
  import opened Text
  import opened Seqs

  datatype AlumniRecord = AlumniRecord(
    id: nat,
    name: string,
    degree: string,
    department: string,
    year: nat,
    country: string,
    industry: string,
    email: string)

  /** The filter values; a missing one is the empty string, since both are
      falsy. */
  datatype FilterModel = FilterModel(degree: string, department: string, year: string, country: string, industry: string)

  datatype Pagination = Pagination(page: nat, pageSize: nat)

  datatype Page = Page(items: seq<AlumniRecord>, itemCount: nat)

  datatype Field = Degree | Department | Year | Country | Industry

  /** The order in which `getMany` applies the filters. */
  const FIELDS: seq<Field> := [Degree, Department, Year, Country, Industry]

  function Value(fm: FilterModel, f: Field): string {
    match f
    case Degree => fm.degree
    case Department => fm.department
    case Year => fm.year
    case Country => fm.country
    case Industry => fm.industry
  }

  /** `field.toLowerCase().includes(value.toLowerCase())`. */
  predicate ContainsIgnoringCase(field: string, value: string) {
    Includes(ToLower(field), ToLower(value))
  }

  /** One filter's test: a case-insensitive substring for the text fields,
      `item.year.toString() === year` for the year. */
  predicate FieldMatches(x: AlumniRecord, f: Field, v: string) {
    match f
    case Degree => ContainsIgnoringCase(x.degree, v)
    case Department => ContainsIgnoringCase(x.department, v)
    case Year => NatToString(x.year) == v
    case Country => ContainsIgnoringCase(x.country, v)
    case Industry => ContainsIgnoringCase(x.industry, v)
  }

  function FieldTest(f: Field, v: string): AlumniRecord -> bool {
    (x: AlumniRecord) => FieldMatches(x, f, v)
  }

  /** `if (value) data = data.filter(test)`. */
  function KeepIf(data: seq<AlumniRecord>, f: Field, v: string): seq<AlumniRecord> {
    if v == "" then data else Filter(data, FieldTest(f, v))
  }

  /** The first `k` filters, applied in order. */
  function FilterChain(data: seq<AlumniRecord>, fm: FilterModel, k: nat): seq<AlumniRecord>
    requires k <= |FIELDS|
  {
    if k == 0 then data else KeepIf(FilterChain(data, fm, k - 1), FIELDS[k - 1], Value(fm, FIELDS[k - 1]))
  }

  /** A record passes the first `k` filters. */
  predicate PassesFirst(x: AlumniRecord, fm: FilterModel, k: nat)
    requires k <= |FIELDS|
  {
    k == 0 || (PassesFirst(x, fm, k - 1) && (Value(fm, FIELDS[k - 1]) != "" ==> FieldMatches(x, FIELDS[k - 1], Value(fm, FIELDS[k - 1]))))
  }

  function PassesFirstTest(fm: FilterModel, k: nat): AlumniRecord -> bool
    requires k <= |FIELDS|
  {
    (x: AlumniRecord) => PassesFirst(x, fm, k)
  }

  /** Which records the directory is meant to show: every non-empty filter
      holds, and no filter model means no constraint. */
  predicate Wanted(x: AlumniRecord, filterModel: Option<FilterModel>) {
    match filterModel
    case None => true
    case Some(fm) =>
      && (fm.degree != "" ==> ContainsIgnoringCase(x.degree, fm.degree))
      && (fm.department != "" ==> ContainsIgnoringCase(x.department, fm.department))
      && (fm.year != "" ==> NatToString(x.year) == fm.year)
      && (fm.country != "" ==> ContainsIgnoringCase(x.country, fm.country))
      && (fm.industry != "" ==> ContainsIgnoringCase(x.industry, fm.industry))
  }

  function WantedTest(filterModel: Option<FilterModel>): AlumniRecord -> bool {
    (x: AlumniRecord) => Wanted(x, filterModel)
  }

  /** The chain of filters is one filter by the conjunction of its tests. */
  lemma {:induction false} ChainIsOneFilter(data: seq<AlumniRecord>, fm: FilterModel, k: nat)
    requires k <= |FIELDS|
    ensures FilterChain(data, fm, k) == Filter(data, PassesFirstTest(fm, k))
  {
    if k == 0 {
      FilterKeepsAll(data, PassesFirstTest(fm, 0));
    } else {
      ChainIsOneFilter(data, fm, k - 1);
      var f := FIELDS[k - 1];
      var v := Value(fm, f);
      var before := PassesFirstTest(fm, k - 1);
      var after := PassesFirstTest(fm, k);
      assert FilterChain(data, fm, k) == KeepIf(Filter(data, before), f, v);
      if v == "" {
        assert forall x :: before(x) == after(x) by {
          forall x ensures before(x) == after(x) {
            assert after(x) == PassesFirst(x, fm, k);
          }
        }
        FilterSameValues(data, before, after);
      } else {
        var test := FieldTest(f, v);
        assert forall x :: after(x) == (before(x) && test(x)) by {
          forall x ensures after(x) == (before(x) && test(x)) {
            assert after(x) == PassesFirst(x, fm, k);
          }
        }
        FilterTwice(data, before, test, after);
      }
    }
  }

  /** Passing all five filters is being wanted. */
  lemma PassesAllIsWanted(x: AlumniRecord, fm: FilterModel)
    ensures PassesFirst(x, fm, |FIELDS|) == Wanted(x, Some(fm))
  {
    assert FIELDS[0] == Degree && FIELDS[1] == Department && FIELDS[2] == Year;
    assert FIELDS[3] == Country && FIELDS[4] == Industry;
    assert PassesFirst(x, fm, 1) == (fm.degree != "" ==> ContainsIgnoringCase(x.degree, fm.degree));
    assert PassesFirst(x, fm, 3) == (PassesFirst(x, fm, 1)
             && (fm.department != "" ==> ContainsIgnoringCase(x.department, fm.department))
             && (fm.year != "" ==> NatToString(x.year) == fm.year));
  }

  /** The records left after the filters. */
  function Filtered(data: seq<AlumniRecord>, filterModel: Option<FilterModel>): (r: seq<AlumniRecord>)
    ensures |r| <= |data|
  {
    FilteredIsOneFilter(data, filterModel);
    match filterModel
    case None => data
    case Some(fm) => FilterChain(data, fm, |FIELDS|)
  }

  /** Every kept record is in the data and wanted, and every wanted record
      is kept. */
  lemma FilteredMeaning(data: seq<AlumniRecord>, filterModel: Option<FilterModel>)
    ensures var r := Filtered(data, filterModel);
            && (forall i :: 0 <= i < |r| ==> r[i] in data && Wanted(r[i], filterModel))
            && (forall x :: x in data && Wanted(x, filterModel) ==> x in r)
  {
    FilteredIsOneFilter(data, filterModel);
  }

  /** The five filters together keep exactly the wanted records. */
  lemma FilteredIsOneFilter(data: seq<AlumniRecord>, filterModel: Option<FilterModel>)
    ensures filterModel.None? ==> data == Filter(data, WantedTest(filterModel))
    ensures filterModel.Some? ==> FilterChain(data, filterModel.value, |FIELDS|) == Filter(data, WantedTest(filterModel))
  {
    match filterModel
    case None =>
      FilterKeepsAll(data, WantedTest(filterModel));
    case Some(fm) =>
      ChainIsOneFilter(data, fm, 5);
      forall x { PassesAllIsWanted(x, fm); }
      FilterSameValues(data, PassesFirstTest(fm, |FIELDS|), WantedTest(filterModel));
  }

  /** Filtering keeps the records' relative order, and each wanted record
      as often as the list holds it. */
  lemma FilteredKeepsOrder(data: seq<AlumniRecord>, filterModel: Option<FilterModel>)
    ensures IsSubsequence(Filtered(data, filterModel), data)
    ensures forall x :: multiset(Filtered(data, filterModel))[x] == if Wanted(x, filterModel) then multiset(data)[x] else 0
  {
    FilteredIsOneFilter(data, filterModel);
    FilterIsSubsequence(data, WantedTest(filterModel));
  }

  /** `data.slice(start, end)` for `start <= end`. */
  function Slice<T>(s: seq<T>, start: nat, end: nat): (r: seq<T>)
    requires start <= end
    ensures |r| <= end - start
    ensures start >= |s| ==> r == []
    ensures start < |s| ==> r == s[start..if end < |s| then end else |s|]
    ensures forall i :: 0 <= i < |r| ==> start + i < |s| && r[i] == s[start + i]
  {
    if start >= |s| then [] else s[start..if end < |s| then end else |s|]
  }

  /** `getMany`: the page `page` of the filtered records, and how many
      records the filters leave, whatever the page. */
  function GetMany(data: seq<AlumniRecord>, pagination: Pagination, filterModel: Option<FilterModel>): (r: Page)
    ensures r.itemCount == |Filtered(data, filterModel)|
    ensures |r.items| <= pagination.pageSize
    ensures var start := pagination.page * pagination.pageSize;
            && (start >= r.itemCount ==> r.items == [])
            && (start < r.itemCount ==>
                  |r.items| == if start + pagination.pageSize <= r.itemCount then pagination.pageSize else r.itemCount - start)
            && (forall i :: 0 <= i < |r.items| ==> start + i < r.itemCount && r.items[i] == Filtered(data, filterModel)[start + i])
  {
    var filtered := Filtered(data, filterModel);
    var start := pagination.page * pagination.pageSize;
    var items := Slice(filtered, start, start + pagination.pageSize);
    Page(items, |filtered|)
  }

  /** Every record on a page passes every non-empty filter. */
  lemma PageItemsAreWanted(data: seq<AlumniRecord>, pagination: Pagination, filterModel: Option<FilterModel>, i: nat)
    requires i < |GetMany(data, pagination, filterModel).items|
    ensures GetMany(data, pagination, filterModel).items[i] in data
    ensures Wanted(GetMany(data, pagination, filterModel).items[i], filterModel)
  {
    var all := Filtered(data, filterModel);
    var k := pagination.page * pagination.pageSize + i;
    assert GetMany(data, pagination, filterModel).items[i] == all[k];
    FilteredMeaning(data, filterModel);
  }

  /** The case of a text filter's value does not matter. */
  lemma FilterCaseIsIgnored(data: seq<AlumniRecord>, pagination: Pagination, fm1: FilterModel, fm2: FilterModel)
    requires ToLower(fm1.degree) == ToLower(fm2.degree)
    requires ToLower(fm1.department) == ToLower(fm2.department)
    requires fm1.year == fm2.year
    requires ToLower(fm1.country) == ToLower(fm2.country)
    requires ToLower(fm1.industry) == ToLower(fm2.industry)
    ensures GetMany(data, pagination, Some(fm1)) == GetMany(data, pagination, Some(fm2))
  {
    assert |fm1.degree| == |ToLower(fm1.degree)|;
    assert |fm1.department| == |ToLower(fm1.department)|;
    assert |fm1.country| == |ToLower(fm1.country)|;
    assert |fm1.industry| == |ToLower(fm1.industry)|;
    assert forall x :: Wanted(x, Some(fm1)) == Wanted(x, Some(fm2));
    FilteredIsOneFilter(data, Some(fm1));
    FilteredIsOneFilter(data, Some(fm2));
    FilterSameValues(data, WantedTest(Some(fm1)), WantedTest(Some(fm2)));
  }

  /** The year filter is exact: `"2019"` keeps the 2019 graduates only, never
      a year that merely contains those digits. */
  lemma YearFilterIsExact(x: AlumniRecord, year: nat)
    ensures FieldMatches(x, Year, NatToString(year)) <==> x.year == year
  {
    if NatToString(x.year) == NatToString(year) {
      NatToStringRoundTrip(x.year);
      NatToStringRoundTrip(year);
    }
  }
}
