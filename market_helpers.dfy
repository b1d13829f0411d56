/** Decoding of the registry's raw enumeration integers, and the "market is active" predicate. */
module MarketHelpers {
  import opened MarketTypes

  /** The registry's integer code of an outcome (the index of its lookup-table entry). */
  function OutcomeCode(o: Outcome): (c: nat)
    ensures c <= 3
  {
    match o
    case Undecided => 0
    case Yes => 1
    case No => 2
    case Void => 3
  }

  /** The registry's integer code of a status. */
  function StatusCode(s: Status): (c: nat)
    ensures c <= 1
  {
    match s
    case Open => 0
    case Resolved => 1
  }

  /** `decodeOutcome`: a table lookup with `"Undecided"` as the fallback. Every known code decodes
      to the outcome that has that code; every other integer decodes to `Undecided`. */
  function DecodeOutcome(v: int): (o: Outcome)
    ensures 0 <= v <= 3 ==> OutcomeCode(o) == v
    ensures !(0 <= v <= 3) ==> o == Undecided
  {
    if v == 1 then Yes
    else if v == 2 then No
    else if v == 3 then Void
    else Undecided
  }

  /** `decodeStatus`: a table lookup with `"Open"` as the fallback. */
  function DecodeStatus(v: int): (s: Status)
    ensures 0 <= v <= 1 ==> StatusCode(s) == v
    ensures !(0 <= v <= 1) ==> s == Open
  {
    if v == 1 then Resolved else Open
  }

  /** Decoding inverts the registry's encoding, for both enumerations. */
  lemma DecodeEncode(o: Outcome, s: Status)
    ensures DecodeOutcome(OutcomeCode(o)) == o
    ensures DecodeStatus(StatusCode(s)) == s
  {
  }

  /** `isMarketActive` at the instant `now` (milliseconds): open, and the deadline strictly later.
      A resolved market is never active, and neither is one whose deadline has been reached. */
  predicate IsMarketActive(m: Market, now: int)
    ensures m.status == Resolved ==> !IsMarketActive(m, now)
    ensures m.deadline <= now ==> !IsMarketActive(m, now)
  {
    m.status == Open && m.deadline > now
  }

  /** A market that is not active at some instant is not active at any later one. */
  lemma StaysInactive(m: Market, now: int, later: int)
    requires now <= later
    ensures !IsMarketActive(m, now) ==> !IsMarketActive(m, later)
  {
  }
}
