/** The bet dialog: the pari-mutuel payout preview, the approval gate and the single-flight
    `submitting` flag around the approve and bet writes. */
module PlaceBetDialog {
  import opened Wrappers
  import opened MarketTypes
  import opened MarketHelpers
  import opened Arith
  import opened Chain

  /** The dialog's tab. */
  datatype Side = YesSide | NoSide

  /** The `placeBet` side argument: 1 on the YES tab and 2 on the NO tab, which are the
      registry's codes of the outcomes `Yes` and `No`. */
  function SideCode(side: Side): (c: nat)
    ensures c == 1 || c == 2
    ensures DecodeOutcome(c) == (if side == YesSide then Yes else No)
  {
    if side == YesSide then 1 else 2
  }

  /** `amountParsed`: an empty amount field is 0; otherwise `parsed`, the base-unit amount the
      field's text parses to. */
  function AmountParsed(text: string, parsed: int): (a: int)
    ensures text == "" ==> a == 0
    ensures text != "" ==> a == parsed
  {
    if text == "" then 0 else parsed
  }

  /** `needsApproval`: the allowance is known and below the stake. Approval is only ever asked
      for a positive stake, and once the maximal allowance is granted no stake up to it needs
      approval again. */
  predicate NeedsApproval(allowance: Option<nat>, amount: int)
    ensures NeedsApproval(allowance, amount) ==> amount > 0
    ensures allowance == Some(MaxAllowance) && amount <= MaxAllowance ==> !NeedsApproval(allowance, amount)
  {
    allowance.Some? && allowance.value < amount
  }

  /** An unknown allowance never asks for approval, and a stake that needs approval still needs
      it when raised. */
  lemma ApprovalCases(allowance: Option<nat>, amount: int, more: int)
    requires amount <= more
    ensures allowance.None? ==> !NeedsApproval(allowance, amount)
    ensures NeedsApproval(allowance, amount) ==> NeedsApproval(allowance, more)
  {
  }

  /** The pool of the side bet on, and the opposing pool. */
  function OwnPool(side: Side, yesPool: nat, noPool: nat): nat {
    if side == YesSide then yesPool else noPool
  }

  function OpposingPool(side: Side, yesPool: nat, noPool: nat): nat {
    if side == YesSide then noPool else yesPool
  }

  /** `payoutPreview` (`None` is the "--" text): with the stake added to its side, the stake's
      pro-rata share of both pools, rounded down. A stake that is not positive has no preview.
      A positive stake always previews at least the stake and at most the stake plus the whole
      opposing pool, and exactly the stake when the opposing pool is empty. */
  function PayoutPreview(side: Side, amount: int, yesPool: nat, noPool: nat): (r: Option<nat>)
    ensures amount <= 0 ==> r.None?
    ensures amount > 0 ==> r.Some?
    ensures amount > 0 ==>
      var own := OwnPool(side, yesPool, noPool) + amount;
      r.value * own <= amount * (yesPool + noPool + amount) < (r.value + 1) * own
    ensures amount > 0 ==> amount <= r.value <= amount + OpposingPool(side, yesPool, noPool)
    ensures amount > 0 && OpposingPool(side, yesPool, noPool) == 0 ==> r.value == amount
  {
    if amount <= 0 then None
    else
      var own := OwnPool(side, yesPool, noPool) + amount;
      var other := OpposingPool(side, yesPool, noPool);
      // the source's guard against an empty own pool cannot fire once the stake is positive
      var payout := amount * (own + other) / own;
      PayoutBounds(amount, own, other);
      Some(payout)
  }

  /** The arithmetic behind the preview's bounds. */
  lemma PayoutBounds(amount: nat, own: nat, other: nat)
    requires 0 < amount <= own
    ensures var q := amount * (own + other) / own;
      q * own <= amount * (own + other) < (q + 1) * own
      && amount <= q <= amount + other
      && (other == 0 ==> q == amount)
  {
    var x := amount * (own + other);
    var q := x / own;
    FloorBounds(x, own);
    assert x == amount * own + amount * other;
    assert amount * own <= x;
    CancelLt(amount, q + 1, own);
    assert amount * other <= own * other by {
      assert (own - amount) * other >= 0;
    }
    assert q * own <= (amount + other) * own;
    CancelLe(q, amount + other, own);
    if other == 0 {
      FloorUnique(x, own, amount);
    }
  }

  /** The NO preview is the YES preview with the pools swapped. */
  lemma PreviewSymmetric(amount: int, yesPool: nat, noPool: nat)
    ensures PayoutPreview(NoSide, amount, yesPool, noPool) == PayoutPreview(YesSide, amount, noPool, yesPool)
  {
  }

  /** Worked examples: a sole first stake of 100 previews 100; a stake of 50 on YES with pools of
      50 and 100 previews 100. */
  lemma PreviewExamples()
    ensures PayoutPreview(YesSide, 100, 0, 0) == Some(100)
    ensures PayoutPreview(YesSide, 50, 50, 100) == Some(100)
  {
    assert 50 * 200 / 100 == 100;
  }

  /** One open dialog: its `tab`, parsed `amount` and `submitting` state, the write in flight,
      the writes handed to the wallet so far, how often `onSuccess` and `onClose` ran, and how
      often a confirmed approval invalidated the cached allowance. */
  class BetDialog {
    const marketId: nat
    var tab: Side
    var amount: int
    var submitting: bool
    var phase: Phase
    var sent: seq<Tx>
    var successCalls: nat
    var closeCalls: nat
    var allowanceRefreshes: nat

    /** `submitting` is set exactly while a write is in flight, and that write is the last one
        handed to the wallet. */
    ghost predicate Valid()
      reads this
    {
      (submitting <==> !phase.Idle?)
      && (!phase.Idle? ==> sent != [] && sent[|sent| - 1] == phase.tx)
    }

    constructor (marketId: nat)
      ensures Valid()
      ensures this.marketId == marketId && tab == YesSide && amount == 0
      ensures !submitting && phase == Idle && sent == []
      ensures successCalls == 0 && closeCalls == 0 && allowanceRefreshes == 0
    {
      this.marketId := marketId;
      tab := YesSide;
      amount := 0;
      submitting := false;
      phase := Idle;
      sent := [];
      successCalls := 0;
      closeCalls := 0;
      allowanceRefreshes := 0;
    }

    method SelectTab(side: Side)
      modifies this`tab
      ensures tab == side
    {
      tab := side;
    }

    /** Typing in the amount field. */
    method EnterAmount(text: string, parsed: int)
      modifies this`amount
      ensures amount == AmountParsed(text, parsed)
    {
      amount := AmountParsed(text, parsed);
    }

    /** A press of the primary button, which is "Approve USDC" while `needsApproval` holds and
        "Confirm bet" otherwise, and is disabled while submitting. Approval hands an approval of
        `MaxAllowance` to the wallet; a bet needs a positive amount and sends the market, the
        tab's side code and the amount. No bet write is reachable while approval is needed, and
        every exit that leaves no write in flight leaves `submitting` false. */
    method PressPrimary(allowance: Option<nat>, clientReady: bool) returns (r: Step)
      requires Valid()
      modifies this`submitting, this`phase, this`sent
      ensures Valid()
      ensures old(submitting) ==> r == Ignored && phase == old(phase) && sent == old(sent)
      ensures !old(submitting) && NeedsApproval(allowance, amount) ==>
        if clientReady then
          r == AwaitingSignature && phase == Signing(Approve(MaxAllowance))
          && sent == old(sent) + [Approve(MaxAllowance)]
        else r == Failed && phase == Idle && sent == old(sent)
      ensures !old(submitting) && !NeedsApproval(allowance, amount) && amount <= 0 ==>
        r == Rejected && phase == Idle && sent == old(sent)
      ensures !old(submitting) && !NeedsApproval(allowance, amount) && amount > 0 ==>
        var tx := PlaceBet(marketId, SideCode(tab), amount);
        if clientReady then r == AwaitingSignature && phase == Signing(tx) && sent == old(sent) + [tx]
        else r == Failed && phase == Idle && sent == old(sent)
    {
      if submitting {
        return Ignored;
      }
      if NeedsApproval(allowance, amount) {
        // handleApprove
        submitting := true;
        if !clientReady {
          submitting := false;
          return Failed;
        }
        var tx := Approve(MaxAllowance);
        sent := sent + [tx];
        phase := Signing(tx);
        return AwaitingSignature;
      }
      // handleBet
      if amount <= 0 {
        submitting := false;
        return Rejected;
      }
      submitting := true;
      if !clientReady {
        submitting := false;
        return Failed;
      }
      var tx := PlaceBet(marketId, SideCode(tab), amount);
      sent := sent + [tx];
      phase := Signing(tx);
      r := AwaitingSignature;
    }

    /** The wallet returned: with a transaction hash the handler waits for the receipt; on a
        rejection it exits with `submitting` false. */
    method Signed(ok: bool)
      requires Valid() && phase.Signing?
      modifies this`submitting, this`phase
      ensures Valid()
      ensures ok ==> phase == Confirming(old(phase).tx) && submitting
      ensures !ok ==> phase == Idle && !submitting
    {
      if ok {
        phase := Confirming(phase.tx);
      } else {
        phase := Idle;
        submitting := false;
      }
    }

    /** The receipt wait ended. Only a confirmed bet runs `onSuccess` and then `onClose`; only a
        confirmed approval invalidates the cached allowance; a failure does neither. Every
        outcome leaves `submitting` false. */
    method Confirmed(ok: bool)
      requires Valid() && phase.Confirming?
      modifies this`submitting, this`phase, this`successCalls, this`closeCalls,
        this`allowanceRefreshes
      ensures Valid() && phase == Idle && !submitting
      ensures var bet := ok && old(phase).tx.PlaceBet?;
        successCalls == old(successCalls) + (if bet then 1 else 0)
        && closeCalls == old(closeCalls) + (if bet then 1 else 0)
      ensures allowanceRefreshes
        == old(allowanceRefreshes) + (if ok && old(phase).tx.Approve? then 1 else 0)
    {
      if ok && phase.tx.PlaceBet? {
        successCalls := successCalls + 1;
        closeCalls := closeCalls + 1;
      }
      if ok && phase.tx.Approve? {
        allowanceRefreshes := allowanceRefreshes + 1;
      }
      phase := Idle;
      submitting := false;
    }

    /** "Cancel" is disabled while submitting; otherwise it runs `onClose`. */
    method PressCancel()
      modifies this`closeCalls
      ensures submitting ==> closeCalls == old(closeCalls)
      ensures !submitting ==> closeCalls == old(closeCalls) + 1
    {
      if !submitting {
        closeCalls := closeCalls + 1;
      }
    }

    /** The header's "Close" button is never disabled: it runs `onClose` even while a write is
        in flight, which keeps running. */
    method PressClose()
      modifies this`closeCalls
      ensures closeCalls == old(closeCalls) + 1
    {
      closeCalls := closeCalls + 1;
    }
  }
}
