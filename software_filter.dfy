/**
 * The filter panel of the software list: three text filters held as
 * component state, replaced one key at a time or all at once, and pushed to
 * the page's `onFilterChange` callback after every change.
 */
module Filters {

  /** The three filter texts. */
  datatype FilterState = FilterState(searchTerm: string, owner: string, dateRange: string)

  /** `keyof FilterState`. */
  datatype FilterKey = SearchTerm | Owner | DateRange

  /** The state before any input, and after "clear". */
  const EmptyFilters := FilterState("", "", "")

  /** `f[key]`. */
  function Get(f: FilterState, key: FilterKey): string {
    match key
    case SearchTerm => f.searchTerm
    case Owner => f.owner
    case DateRange => f.dateRange
  }

  /** `{ ...f, [key]: value }`: key now holds value and the other two keys are untouched. */
  function With(f: FilterState, key: FilterKey, value: string): (r: FilterState)
    ensures Get(r, key) == value
    ensures forall k :: k != key ==> Get(r, k) == Get(f, k)
  {
    match key
    case SearchTerm => f.(searchTerm := value)
    case Owner => f.(owner := value)
    case DateRange => f.(dateRange := value)
  }

  /** Two updates of the same key: the later one wins. */
  lemma WithLastWriteWins(f: FilterState, key: FilterKey, a: string, b: string)
    ensures With(With(f, key, a), key, b) == With(f, key, b)
  {
  }

  /** Updates of two different keys do not interfere, in either order. */
  lemma WithCommutes(f: FilterState, k1: FilterKey, a: string, k2: FilterKey, b: string)
    requires k1 != k2
    ensures With(With(f, k1, a), k2, b) == With(With(f, k2, b), k1, a)
  {
  }

  /**
   * The filter component. Its state is the three fields; the value each
   * method returns is the state it hands to `onFilterChange`.
   */
  class SoftwareFilter {
    var searchTerm: string
    var owner: string
    var dateRange: string

    /** The component's current `filters` value. */
    function State(): FilterState
      reads this
    {
      FilterState(searchTerm, owner, dateRange)
    }

    /** `useState<FilterState>({ searchTerm: '', owner: '', dateRange: '' })`. */
    constructor ()
      ensures State() == EmptyFilters
    {
      searchTerm, owner, dateRange := "", "", "";
    }

    /**
     * `updateFilter(key, value)`: store the state with key replaced, and pass
     * that same new state to the callback.
     */
    method UpdateFilter(key: FilterKey, value: string) returns (notified: FilterState)
      modifies this
      ensures State() == With(old(State()), key, value)
      ensures Get(State(), key) == value
      ensures forall k :: k != key ==> Get(State(), k) == Get(old(State()), k)
      ensures notified == State()
    {
      match key {
        case SearchTerm => searchTerm := value;
        case Owner => owner := value;
        case DateRange => dateRange := value;
      }
      notified := State();
    }

    /**
     * `clearFilters()`: store the all-empty state, whatever the state was, and
     * pass it to the callback; clearing twice is clearing once.
     */
    method ClearFilters() returns (notified: FilterState)
      modifies this
      ensures State() == EmptyFilters
      ensures notified == State()
    {
      searchTerm, owner, dateRange := "", "", "";
      notified := State();
    }
  }
}
