/** The admin's resolution buttons: which outcomes can be sent, and the `submitting` flag around
    the resolve write. */
module AdminResolutionPanel {
  import opened MarketTypes
  import opened MarketHelpers
  import opened Chain

  /** The three buttons: "Resolve YES", "Resolve NO" and "Void market". */
  datatype Resolution = ResolveYes | ResolveNo | ResolveVoid

  /** The outcome code a button sends: the registry's code of `Yes`, `No` or `Void`, never that of
      `Undecided`. */
  function ResolutionCode(b: Resolution): (c: nat)
    ensures 1 <= c <= 3
    ensures DecodeOutcome(c) != Undecided
    ensures DecodeOutcome(c) == match b case ResolveYes => Yes case ResolveNo => No case ResolveVoid => Void
  {
    match b
    case ResolveYes => 1
    case ResolveNo => 2
    case ResolveVoid => 3
  }

  /** Distinct buttons send distinct codes, and every settled outcome has its button. */
  lemma ResolutionCodes(b1: Resolution, b2: Resolution, o: Outcome)
    ensures ResolutionCode(b1) == ResolutionCode(b2) ==> b1 == b2
    ensures o != Undecided ==> exists b :: DecodeOutcome(ResolutionCode(b)) == o
  {
    if o == Yes {
      assert DecodeOutcome(ResolutionCode(ResolveYes)) == o;
    } else if o == No {
      assert DecodeOutcome(ResolutionCode(ResolveNo)) == o;
    } else if o == Void {
      assert DecodeOutcome(ResolutionCode(ResolveVoid)) == o;
    }
  }

  /** The panel for one market: its `submitting` flag, the write in flight, the writes handed to
      the wallet, and how often `onResolved` ran. */
  class Panel {
    const marketId: nat
    var submitting: bool
    var phase: Phase
    var sent: seq<Tx>
    var resolvedCalls: nat

    /** `submitting` is set exactly while a resolution of this market is in flight, the last
        write handed over, and it never carries the code of `Undecided`. */
    ghost predicate Valid()
      reads this
    {
      (submitting <==> !phase.Idle?)
      && (!phase.Idle? ==>
            phase.tx.ResolveMarket? && phase.tx.marketId == marketId && 1 <= phase.tx.outcome <= 3
            && sent != [] && sent[|sent| - 1] == phase.tx)
    }

    constructor (marketId: nat)
      ensures Valid() && this.marketId == marketId
      ensures !submitting && phase == Idle && sent == [] && resolvedCalls == 0
    {
      this.marketId := marketId;
      submitting := false;
      phase := Idle;
      sent := [];
      resolvedCalls := 0;
    }

    /** A press of one of the three buttons, which are all disabled while submitting. Without a
        client it fails with no write; otherwise it hands the resolution of this market with the
        button's code to the wallet. */
    method Press(b: Resolution, clientReady: bool) returns (r: Step)
      requires Valid()
      modifies this`submitting, this`phase, this`sent
      ensures Valid()
      ensures old(submitting) ==> r == Ignored && unchanged(this)
      ensures !old(submitting) && !clientReady ==> r == Failed && phase == Idle && sent == old(sent)
      ensures !old(submitting) && clientReady ==>
        var tx := ResolveMarket(marketId, ResolutionCode(b));
        r == AwaitingSignature && phase == Signing(tx) && sent == old(sent) + [tx]
    {
      if submitting {
        return Ignored;
      }
      submitting := true;
      if !clientReady {
        submitting := false;
        return Failed;
      }
      var tx := ResolveMarket(marketId, ResolutionCode(b));
      sent := sent + [tx];
      phase := Signing(tx);
      r := AwaitingSignature;
    }

    /** The wallet returned: a hash moves on to the receipt wait; a rejection fails. */
    method Signed(ok: bool)
      requires Valid() && phase.Signing?
      modifies this`submitting, this`phase
      ensures Valid()
      ensures ok ==> phase == Confirming(old(phase).tx) && submitting
      ensures !ok ==> phase == Idle && !submitting
    {
      if ok {
        phase := Confirming(phase.tx);
      } else {
        phase := Idle;
        submitting := false;
      }
    }

    /** The receipt wait ended: `onResolved` runs only on success; `submitting` is false either
        way. */
    method Confirmed(ok: bool)
      requires Valid() && phase.Confirming?
      modifies this`submitting, this`phase, this`resolvedCalls
      ensures Valid() && phase == Idle && !submitting
      ensures resolvedCalls == old(resolvedCalls) + (if ok then 1 else 0)
    {
      if ok {
        resolvedCalls := resolvedCalls + 1;
      }
      phase := Idle;
      submitting := false;
    }
  }
}
