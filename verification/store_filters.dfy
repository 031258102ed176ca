/** The store filter panel (components/store-filters.tsx): city and format
    selections, a name search, and the lists of choices. */
module StoreFilters {

  import opened Seqs
  import opened Stores

  datatype Selection = Selection(cities: seq<string>, formats: seq<string>, query: string)

  const INITIAL: Selection := Selection([], [], "")

  /** `toLowerCase`, as a character mapping supplied by the caller. */
  function Lower(lowerChar: char -> char, s: string): (r: string)
    ensures |r| == |s|
  {
    seq(|s|, i requires 0 <= i < |s| => lowerChar(s[i]))
  }

  /** `hay.includes(needle)` */
  predicate Includes(hay: string, needle: string)
    decreases |hay|
  {
    (|needle| <= |hay| && hay[..|needle|] == needle) ||
    (|hay| > 0 && Includes(hay[1..], needle))
  }

  /** An empty selection matches everything. */
  predicate SelectedOrAll(selected: seq<string>, value: string) {
    |selected| == 0 || value in selected
  }

  /** The predicate handed to `stores.filter`. */
  predicate StoreMatches(sel: Selection, lowerChar: char -> char, s: StoreView) {
    && SelectedOrAll(sel.cities, s.city)
    && SelectedOrAll(sel.formats, s.equipmentFormat)
    && Includes(Lower(lowerChar, s.name), Lower(lowerChar, sel.query))
  }

  /** The list the effect passes to `onFilterChange`. */
  function FilterStores(stores: seq<StoreView>, sel: Selection, lowerChar: char -> char): (r: seq<StoreView>)
    ensures forall s :: s in r <==> s in stores && StoreMatches(sel, lowerChar, s)
    ensures IsSubsequence(r, stores)
    ensures forall s :: multiset(r)[s] == if StoreMatches(sel, lowerChar, s) then multiset(stores)[s] else 0
  {
    var keep := (s: StoreView) => StoreMatches(sel, lowerChar, s);
    FilterMultiplicity(keep, stores);
    Filter(keep, stores)
  }

  lemma EmptyQueryMatchesEveryName(lowerChar: char -> char, name: string)
    ensures Includes(Lower(lowerChar, name), Lower(lowerChar, ""))
  {
    assert Lower(lowerChar, "") == [];
    assert Lower(lowerChar, name)[..0] == [];
  }

  /** With nothing selected and no query, every store is shown, in order. */
  lemma InitialSelectionKeepsAll(stores: seq<StoreView>, lowerChar: char -> char)
    ensures FilterStores(stores, INITIAL, lowerChar) == stores
  {
    forall i | 0 <= i < |stores| ensures StoreMatches(INITIAL, lowerChar, stores[i]) {
      EmptyQueryMatchesEveryName(lowerChar, stores[i].name);
    }
  }

  /** A city selection alone keeps exactly the stores in those cities. */
  lemma CitySelectionKeepsItsCities(stores: seq<StoreView>, cities: seq<string>, lowerChar: char -> char)
    requires |cities| > 0
    ensures forall s :: s in FilterStores(stores, Selection(cities, [], ""), lowerChar) <==>
                          s in stores && s.city in cities
  {
    forall s | s in stores {
      EmptyQueryMatchesEveryName(lowerChar, s.name);
    }
  }

  datatype Kind = City | Format

  /** `handleFilterChange` */
  function HandleFilterChange(sel: Selection, kind: Kind, value: string): (r: Selection)
    ensures kind == City ==> r.formats == sel.formats && (value in r.cities <==> value !in sel.cities)
    ensures kind == Format ==> r.cities == sel.cities && (value in r.formats <==> value !in sel.formats)
    ensures r.query == sel.query
    ensures forall w :: w != value ==> (w in r.cities <==> w in sel.cities) && (w in r.formats <==> w in sel.formats)
  {
    match kind
    case City => sel.(cities := Toggle(sel.cities, value))
    case Format => sel.(formats := Toggle(sel.formats, value))
  }

  /** Clicking an unselected button twice restores the selection. */
  lemma ClickTwiceRestores(sel: Selection, kind: Kind, value: string)
    requires kind == City ==> value !in sel.cities
    requires kind == Format ==> value !in sel.formats
    ensures HandleFilterChange(HandleFilterChange(sel, kind, value), kind, value) == sel
  {
    match kind
    case City => ToggleTwiceRestores(sel.cities, value);
    case Format => ToggleTwiceRestores(sel.formats, value);
  }

  function CityColumn(stores: seq<StoreView>): (r: seq<string>)
    ensures |r| == |stores| && forall i :: 0 <= i < |stores| ==> r[i] == stores[i].city
    ensures forall v :: v in r <==> exists s :: s in stores && s.city == v
  {
    seq(|stores|, i requires 0 <= i < |stores| => stores[i].city)
  }

  function FormatColumn(stores: seq<StoreView>): (r: seq<string>)
    ensures |r| == |stores| && forall i :: 0 <= i < |stores| ==> r[i] == stores[i].equipmentFormat
    ensures forall v :: v in r <==> exists s :: s in stores && s.equipmentFormat == v
  {
    seq(|stores|, i requires 0 <= i < |stores| => stores[i].equipmentFormat)
  }

  /** `cities`: each city once, in order of first appearance. */
  function Cities(stores: seq<StoreView>): (r: seq<string>)
    ensures NoDuplicates(r)
    ensures forall c :: c in r <==> c in CityColumn(stores)
    ensures forall c :: c in r <==> exists s :: s in stores && s.city == c
    ensures forall i, j :: 0 <= i < j < |r| ==>
              FirstIndex(CityColumn(stores), r[i]) < FirstIndex(CityColumn(stores), r[j])
  {
    Distinct(CityColumn(stores))
  }

  /** `formats`: each equipment format once, in order of first appearance. */
  function Formats(stores: seq<StoreView>): (r: seq<string>)
    ensures NoDuplicates(r)
    ensures forall f :: f in r <==> f in FormatColumn(stores)
    ensures forall f :: f in r <==> exists s :: s in stores && s.equipmentFormat == f
    ensures forall i, j :: 0 <= i < j < |r| ==>
              FirstIndex(FormatColumn(stores), r[i]) < FirstIndex(FormatColumn(stores), r[j])
  {
    Distinct(FormatColumn(stores))
  }
}
