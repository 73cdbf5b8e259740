/** The picture review states. Their numeric values are stored in the
    picture's reviewStatus column. The enum class is not part of this model:
    the values 0, 1 and 2 are placeholders, and no result here depends on
    which numbers they are, only on their being distinct. */
module ReviewStatuses {
  import opened Common

  datatype ReviewStatus = Reviewing | Passed | Rejected

  function Value(s: ReviewStatus): int {
    match s
    case Reviewing => 0
    case Passed => 1
    case Rejected => 2
  }

  /** getEnumByValue: the state with that value, None for null or an unknown value. */
  function FromValue(v: Option<int>): (r: Option<ReviewStatus>)
    ensures r.Some? ==> v == Some(Value(r.value))
    ensures r.None? ==> v.None? || forall s: ReviewStatus :: Value(s) != v.value
  {
    if v == Some(0) then Some(Reviewing)
    else if v == Some(1) then Some(Passed)
    else if v == Some(2) then Some(Rejected)
    else None
  }

  lemma FromValueOfValue(s: ReviewStatus)
    ensures FromValue(Some(Value(s))) == Some(s)
  {
  }
}
