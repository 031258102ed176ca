/** The zone filter panel (components/spot-filters.tsx): the filter record,
    its three change handlers, the status choices and their styles. */
module SpotFilters {

  import opened Wrappers
  import opened Seqs
  import opened Stores

  /** The filter record. `equipment` is read by the zone list but never
      written by this panel; it starts empty and every handler carries it
      along unchanged. */
  datatype Filters = Filters(
    searchTerm: string,
    categories: seq<string>,
    statuses: seq<string>,
    maxPrice: Option<int>,
    equipment: seq<string>)

  const INITIAL: Filters := Filters("", [], [], None, [])

  /** A handler's effect: the state it stores and the value it passes to
      `onFilterChange`. */
  datatype Update = Update(stored: Filters, emitted: Filters)

  datatype ListKind = Categories | Statuses

  /** `handleFilterToggle` */
  function HandleFilterToggle(f: Filters, kind: ListKind, value: string): (u: Update)
    ensures u.emitted == u.stored
    ensures u.stored.searchTerm == f.searchTerm && u.stored.maxPrice == f.maxPrice
    ensures u.stored.equipment == f.equipment
    ensures kind == Categories ==>
              && u.stored.statuses == f.statuses
              && (value in u.stored.categories <==> value !in f.categories)
              && forall w :: w != value ==> (w in u.stored.categories <==> w in f.categories)
    ensures kind == Statuses ==>
              && u.stored.categories == f.categories
              && (value in u.stored.statuses <==> value !in f.statuses)
              && forall w :: w != value ==> (w in u.stored.statuses <==> w in f.statuses)
  {
    var next := match kind
      case Categories => f.(categories := Toggle(f.categories, value))
      case Statuses => f.(statuses := Toggle(f.statuses, value));
    Update(next, next)
  }

  /** `handleSearchChange` */
  function HandleSearchChange(f: Filters, value: string): (u: Update)
    ensures u.emitted == u.stored
    ensures u.stored.searchTerm == value
    ensures u.stored.(searchTerm := f.searchTerm) == f
  {
    var next := f.(searchTerm := value);
    Update(next, next)
  }

  /** `handlePriceChange`; the input is `None` when the field is empty and
      otherwise the number typed. */
  function HandlePriceChange(f: Filters, input: Option<int>): (u: Update)
    ensures u.emitted == u.stored
    ensures u.stored.maxPrice.None? <==> input.None?
    ensures input.Some? ==> u.stored.maxPrice == input
    ensures u.stored.(maxPrice := f.maxPrice) == f
  {
    var next := f.(maxPrice := if input.Some? then input else None);
    Update(next, next)
  }

  /** Toggling an unchosen status twice gives back the same filters, both
      stored and emitted. */
  lemma ToggleTwiceRestores(f: Filters, kind: ListKind, value: string)
    requires kind == Categories ==> value !in f.categories
    requires kind == Statuses ==> value !in f.statuses
    ensures HandleFilterToggle(HandleFilterToggle(f, kind, value).stored, kind, value).emitted == f
  {
    match kind
    case Categories => Seqs.ToggleTwiceRestores(f.categories, value);
    case Statuses => Seqs.ToggleTwiceRestores(f.statuses, value);
  }

  function StatusColumn(dmpList: seq<ZoneView>): (r: seq<string>)
    ensures |r| == |dmpList| && forall i :: 0 <= i < |dmpList| ==> r[i] == dmpList[i].status
    ensures forall v :: v in r <==> exists d :: d in dmpList && d.status == v
  {
    seq(|dmpList|, i requires 0 <= i < |dmpList| => dmpList[i].status)
  }

  /** `uniqueStatuses`: the status buttons, one per status present, in
      order of first appearance. */
  function UniqueStatuses(dmpList: seq<ZoneView>): (r: seq<string>)
    ensures NoDuplicates(r)
    ensures forall s :: s in r <==> s in StatusColumn(dmpList)
    ensures forall s :: s in r <==> exists d :: d in dmpList && d.status == s
    ensures forall i, j :: 0 <= i < j < |r| ==>
              FirstIndex(StatusColumn(dmpList), r[i]) < FirstIndex(StatusColumn(dmpList), r[j])
  {
    Distinct(StatusColumn(dmpList))
  }

  const WAITING: string := "В ожидании"

  datatype Tone = GreenTone | RedTone | BlueTone | GrayTone

  /** Button styles: a colour, filled when the status is selected. */
  datatype Style = Style(tone: Tone, filled: bool)

  predicate StyledStatus(status: string) {
    status == FREE || status == TAKEN || status == WAITING
  }

  /** `getStatusStyle` */
  function StatusStyle(status: string, isSelected: bool): (st: Style)
    ensures st.filled == isSelected
    ensures st.tone == GrayTone <==> !StyledStatus(status)
    ensures status == FREE ==> st.tone == GreenTone
    ensures status == TAKEN ==> st.tone == RedTone
    ensures status == WAITING ==> st.tone == BlueTone
  {
    var tone :=
      if status == FREE then GreenTone
      else if status == TAKEN then RedTone
      else if status == WAITING then BlueTone
      else GrayTone;
    Style(tone, isSelected)
  }

  /** Selection changes only the fill, never the colour; and the values
      the client type declares, 'VACANT' and 'OCCUPIED', are styled gray. */
  lemma SelectionKeepsTone(status: string)
    ensures StatusStyle(status, true).tone == StatusStyle(status, false).tone
    ensures StatusStyle("VACANT", true).tone == StatusStyle("VACANT", false).tone == GrayTone
    ensures StatusStyle("OCCUPIED", true).tone == StatusStyle("OCCUPIED", false).tone == GrayTone
  {
  }
}
