/** Dates and datetimes as the source's value types use them. */
module Calendar {
  /** A date as its proleptic Gregorian ordinal (Python's `date.toordinal()`). */
  type Date = int

  /** A naive datetime: its date and the microseconds elapsed since midnight. */
  datatype DateTime = DateTime(date: Date, microsecond: nat)

  /** Python's ordering of naive datetimes: by date, then by time of day. */
  predicate DateTimeLess(a: DateTime, b: DateTime) {
    a.date < b.date || (a.date == b.date && a.microsecond < b.microsecond)
  }

  /**
   * A set without elements is the empty set: the proof helper for set
   * extensionality that the ISIN and snapshot lookups of both engines share,
   * not a behaviour of the source.
   */
  lemma EmptyWithoutElements<T>(s: set<T>)
    ensures (forall x :: x !in s) ==> s == {}
  {
    if forall x :: x !in s {
      assert s == {};
    }
  }

  /**
   * The same for dates: the verifier encodes integers apart from other
   * element types, so the generic helper does not yield a date of a
   * non-empty set.
   */
  lemma NoDatesMeansEmpty(s: set<Date>)
    ensures (forall d :: d !in s) ==> s == {}
  {
    if forall d :: d !in s {
      assert s == {};
    }
  }
}
