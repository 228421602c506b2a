/** The filter panel of the transaction history
    (playbox-frontend/src/components/transactions/TransactionFilters.tsx):
    a record of optional filter values that the inputs set key by key, the
    "Clear All Filters" button, and the removable tags of the active filters.
    The debounced hand-over of the record to the page is left out. */
module TransactionFilters {
  import opened Wrappers

  /** The keys of a FilterState. */
  datatype FilterKey = UserId | AdminName | Type | StartDate | EndDate

  /** A value an input hands over: undefined, a number (None standing for
      NaN) or a text. */
  datatype Input = Undefined | Number(n: Option<int>) | Text(s: string)

  /** JavaScript truthiness of an input value: undefined, 0, NaN and "" are
      falsy. */
  predicate Truthy(v: Input) {
    match v
    case Undefined => false
    case Number(n) => n.Some? && n.value != 0
    case Text(s) => s != ""
  }

  /** What `value || undefined` stores: the value when it is truthy, and
      undefined for every falsy value. */
  function Stored(v: Input): (r: Input)
    ensures r == Undefined <==> !Truthy(v)
    ensures Truthy(v) ==> r == v
  {
    if Truthy(v) then v else Undefined
  }

  /** Some key holds a value other than undefined. */
  predicate HasActiveFilters(filters: map<FilterKey, Input>) {
    exists k :: k in filters && filters[k] != Undefined
  }

  /** The tag of a key is shown when its value is truthy. */
  predicate TagShown(filters: map<FilterKey, Input>, key: FilterKey) {
    key in filters && Truthy(filters[key])
  }

  /** Every stored value is undefined or truthy: what handleInputChange
      keeps. */
  predicate WellStored(filters: map<FilterKey, Input>) {
    forall k :: k in filters ==> filters[k] == Undefined || Truthy(filters[k])
  }

  /** On a well-stored record, "Clear All Filters" and the tag row are
      shown exactly when some tag is. */
  lemma ActiveIffSomeTag(filters: map<FilterKey, Input>)
    requires WellStored(filters)
    ensures HasActiveFilters(filters) <==> exists k :: TagShown(filters, k)
  {
    if HasActiveFilters(filters) {
      var k :| k in filters && filters[k] != Undefined;
      assert TagShown(filters, k);
    }
  }

  /** Storing through handleInputChange keeps a record well stored, and a
      falsy value makes the key inactive. */
  lemma StoreKeepsWellStored(filters: map<FilterKey, Input>, key: FilterKey, value: Input)
    requires WellStored(filters)
    ensures WellStored(filters[key := Stored(value)])
    ensures !TagShown(filters[key := Stored(value)], key) <==> !Truthy(value)
  {
  }

  /** The filter panel's state. */
  class FilterPanel {
    var filters: map<FilterKey, Input>

    ghost predicate Valid()
      reads this
    {
      WellStored(filters)
    }

    /** `useState<FilterState>({})`. */
    constructor()
      ensures filters == map[] && Valid()
    {
      filters := map[];
    }

    /** handleInputChange(key, value): the key gets `value || undefined`,
        every other key keeps its value. */
    method HandleInputChange(key: FilterKey, value: Input)
      requires Valid()
      modifies this
      ensures Valid()
      ensures filters == old(filters)[key := Stored(value)]
      ensures key in filters && (filters[key] == Undefined <==> !Truthy(value))
      ensures forall k :: k != key ==> (k in filters <==> k in old(filters))
      ensures forall k :: k != key && k in filters ==> filters[k] == old(filters)[k]
    {
      filters := filters[key := Stored(value)];
    }

    /** clearFilters: back to the empty record, after which no filter is
        active. */
    method ClearFilters()
      modifies this
      ensures filters == map[] && Valid()
      ensures !HasActiveFilters(filters)
    {
      filters := map[];
    }

    /** The × button of a tag: handleInputChange(key, undefined). */
    method RemoveTag(key: FilterKey)
      requires Valid()
      modifies this
      ensures Valid()
      ensures filters == old(filters)[key := Undefined]
      ensures !TagShown(filters, key)
    {
      HandleInputChange(key, Undefined);
    }
  }
}
