/** The zone table of a store (components/dmp-list.tsx): the filter it
    applies, the month window and its arrows, and the per-row status
    label and month buttons. */
module DmpList {

  import opened Wrappers
  import opened Seqs
  import opened Stores
  import opened SpotFilters
  import opened MonthButton

  /** The one status value the table treats as free. */
  const VACANT: string := "VACANT"
  const VACANT_TEXT: string := "Свободно"
  const OCCUPIED_TEXT: string := "Занято"

  const MONTH_COUNT: nat := 12
  const WINDOW: nat := 6
  const MAX_OFFSET: int := 6

  /** The predicate of `handleSpotFilterChange`. */
  predicate DmpMatches(f: Filters, d: ZoneView) {
    && (|f.equipment| == 0 || d.equipment in f.equipment)
    && (|f.categories| == 0 || d.category in f.categories)
    && (|f.statuses| == 0 || d.status in f.statuses)
  }

  /** `handleSpotFilterChange`: the rows shown after a filter change. */
  function HandleSpotFilterChange(dmpList: seq<ZoneView>, f: Filters): (r: seq<ZoneView>)
    ensures forall d :: d in r <==> d in dmpList && DmpMatches(f, d)
    ensures IsSubsequence(r, dmpList)
    ensures |f.equipment| == 0 && |f.categories| == 0 && |f.statuses| == 0 ==> r == dmpList
    ensures forall d :: multiset(r)[d] == if DmpMatches(f, d) then multiset(dmpList)[d] else 0
  {
    var keep := (d: ZoneView) => DmpMatches(f, d);
    FilterMultiplicity(keep, dmpList);
    Filter(keep, dmpList)
  }

  /** The search term and the maximum price the panel emits have no effect
      on the rows. */
  lemma SearchAndPriceIgnored(dmpList: seq<ZoneView>, f: Filters, term: string, price: Option<int>)
    ensures HandleSpotFilterChange(dmpList, f) ==
            HandleSpotFilterChange(dmpList, f.(searchTerm := term, maxPrice := price))
  {
    var g := f.(searchTerm := term, maxPrice := price);
    FilterCongruent((d: ZoneView) => DmpMatches(f, d), (d: ZoneView) => DmpMatches(g, d), dmpList);
  }

  /** The panel's first emission after a search or price change with
      nothing chosen shows every row. */
  lemma UnfilteredAfterSearch(dmpList: seq<ZoneView>, term: string)
    ensures HandleSpotFilterChange(dmpList, HandleSearchChange(SpotFilters.INITIAL, term).emitted) == dmpList
  {
  }

  datatype Arrow = Back | Forward

  /** The arrow buttons' `disabled` conditions. */
  predicate Disabled(offset: int, a: Arrow) {
    match a
    case Back => offset == 0
    case Forward => offset >= MAX_OFFSET
  }

  /** The arrows' click handlers: `Math.max(0, offset - 1)` and
      `Math.min(6, offset + 1)`. */
  function Step(offset: int, a: Arrow): (r: int)
    ensures a == Back ==> r >= 0 && (offset > 0 ==> r == offset - 1)
    ensures a == Forward ==> r <= MAX_OFFSET && (offset < MAX_OFFSET ==> r == offset + 1)
    ensures 0 <= offset <= MAX_OFFSET ==> 0 <= r <= MAX_OFFSET
  {
    match a
    case Back => Max(0, offset - 1)
    case Forward => Min(MAX_OFFSET, offset + 1)
  }

  /** A disabled arrow would not have moved the window anyway. */
  lemma DisabledArrowIsNoOp(offset: int, a: Arrow)
    requires 0 <= offset <= MAX_OFFSET && Disabled(offset, a)
    ensures Step(offset, a) == offset
  {
  }

  /** The offset after a run of arrow clicks. */
  function Clicks(offset: int, arrows: seq<Arrow>): (r: int)
    ensures 0 <= offset <= MAX_OFFSET ==> 0 <= r <= MAX_OFFSET
    decreases |arrows|
  {
    if |arrows| == 0 then offset else Clicks(Step(offset, arrows[0]), arrows[1..])
  }

  /** From the initial offset 0, any run of clicks keeps the offset in
      [0, 6]. */
  lemma ReachableOffsetsInRange(arrows: seq<Arrow>)
    ensures 0 <= Clicks(0, arrows) <= MAX_OFFSET
  {
  }

  /** `new Date(year, month + i, 1)` read back as a (year, month) pair. */
  function AddMonths(start: YearMonth, i: nat): (r: YearMonth)
    requires 0 <= start.month < 12
    ensures 0 <= r.month < 12
    ensures r.year * 12 + r.month == start.year * 12 + start.month + i
  {
    YearMonth(start.year + (start.month + i) / 12, (start.month + i) % 12)
  }

  /** The calendar successor of a month, written directly. */
  function NextMonth(ym: YearMonth): YearMonth {
    if ym.month == 11 then YearMonth(ym.year + 1, 0) else YearMonth(ym.year, ym.month + 1)
  }

  /** `months`: twelve consecutive months starting with the current one. */
  function Months(current: YearMonth): (ms: seq<YearMonth>)
    requires 0 <= current.month < 12
    ensures |ms| == MONTH_COUNT
    ensures ms[0] == current
    ensures forall i :: 0 <= i < MONTH_COUNT - 1 ==> ms[i + 1] == NextMonth(ms[i])
    ensures forall i :: 0 <= i < MONTH_COUNT ==> ms[i] == AddMonths(current, i)
  {
    var ms := seq(MONTH_COUNT, i requires 0 <= i < MONTH_COUNT => AddMonths(current, i));
    forall i | 0 <= i < MONTH_COUNT - 1 ensures ms[i + 1] == NextMonth(ms[i]) {
      SuccessorOfAddMonths(current, i);
    }
    ms
  }

  lemma SuccessorOfAddMonths(start: YearMonth, i: nat)
    requires 0 <= start.month < 12
    ensures AddMonths(start, i + 1) == NextMonth(AddMonths(start, i))
  {
    var a := AddMonths(start, i);
    var b := AddMonths(start, i + 1);
    assert b.year * 12 + b.month == a.year * 12 + a.month + 1;
    if a.month == 11 {
      assert b.month == 0 && b.year == a.year + 1;
    } else {
      assert b.month == a.month + 1 && b.year == a.year;
    }
  }

  /** `visibleMonths = months.slice(offset, offset + 6)` */
  function VisibleMonths(months: seq<YearMonth>, offset: nat): (r: seq<YearMonth>)
    ensures |months| == MONTH_COUNT && offset <= MAX_OFFSET ==>
              |r| == WINDOW && forall i :: 0 <= i < WINDOW ==> r[i] == months[offset + i]
  {
    Slice(months, offset, offset + WINDOW)
  }

  /** Every reachable window shows six consecutive months, starting
      `offset` months after the current one. */
  lemma WindowIsSixConsecutiveMonths(current: YearMonth, arrows: seq<Arrow>)
    requires 0 <= current.month < 12
    ensures var offset := Clicks(0, arrows);
            var w := VisibleMonths(Months(current), offset);
            && |w| == WINDOW
            && w[0] == AddMonths(current, offset)
            && forall i :: 0 <= i < WINDOW - 1 ==> w[i + 1] == NextMonth(w[i])
  {
  }

  /** The row's status badge text. */
  function StatusText(d: ZoneView): (text: string)
    ensures text == VACANT_TEXT <==> d.status == VACANT
    ensures text == VACANT_TEXT || text == OCCUPIED_TEXT
  {
    if d.status == VACANT then VACANT_TEXT else OCCUPIED_TEXT
  }

  datatype Row = Row(zone: ZoneView, statusText: string, buttons: seq<Button>)

  /** One table row: a month button for each visible month, all with the
      availability `status === 'VACANT'`. */
  function RenderRow(d: ZoneView, visible: seq<YearMonth>): (row: Row)
    ensures row.statusText == StatusText(d)
    ensures |row.buttons| == |visible|
    ensures forall i :: 0 <= i < |visible| ==>
              row.buttons[i].month == visible[i] && (row.buttons[i].clickable <==> d.status == VACANT)
  {
    var buttons := seq(|visible|, i requires 0 <= i < |visible| =>
                         MonthButton.Render(Props(visible[i], d.status == VACANT, None, None)));
    Row(d, StatusText(d), buttons)
  }

  /** Every button of a row looks and behaves the same: availability is
      per zone, not per month. */
  lemma RowButtonsUniform(d: ZoneView, visible: seq<YearMonth>, i: nat, j: nat)
    requires i < |visible| && j < |visible|
    ensures RenderRow(d, visible).buttons[i].style == RenderRow(d, visible).buttons[j].style
    ensures RenderRow(d, visible).buttons[i].clickable == RenderRow(d, visible).buttons[j].clickable
  {
  }
}
