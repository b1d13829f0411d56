/** The market card's derived values (pool ratio, the bettor's position) and its bet-dialog gate. */
module MarketCard {
  import opened Wrappers
  import opened MarketTypes
  import opened MarketHelpers
  import opened Arith

  /** The YES share of the pools in basis points: `yesRatio` is `floor(yesPool * 10000 / total) / 100`
      percent, and 50 percent when both pools are empty. The share lies in [0, 10000], is the
      floor of the exact share, and equal pools give exactly half. */
  function YesRatioBps(yesPool: nat, noPool: nat): (r: nat)
    ensures r <= 10000
    ensures yesPool + noPool == 0 ==> r == 5000
    ensures yesPool + noPool > 0 ==>
      r * (yesPool + noPool) <= yesPool * 10000 < (r + 1) * (yesPool + noPool)
    ensures yesPool == noPool ==> r == 5000
  {
    var total := yesPool + noPool;
    if total == 0 then 5000
    else
      var r := yesPool * 10000 / total;
      FloorBounds(yesPool * 10000, total);
      assert r <= 10000 by {
        assert r * total <= 10000 * total;
        CancelLe(r, 10000, total);
      }
      assert yesPool == noPool ==> r == 5000 by {
        if yesPool == noPool {
          assert yesPool * 10000 == 5000 * total;
          FloorUnique(yesPool * 10000, total, 5000);
        }
      }
      r
  }

  /** The NO share in basis points, `noRatio = 100 - yesRatio`: the two shares always sum to
      10000, and the NO share is the exact NO share rounded up. */
  function NoRatioBps(yesPool: nat, noPool: nat): (r: nat)
    ensures r + YesRatioBps(yesPool, noPool) == 10000
    ensures yesPool + noPool == 0 ==> r == 5000
    ensures yesPool + noPool > 0 ==>
      (r - 1) * (yesPool + noPool) < noPool * 10000 <= r * (yesPool + noPool)
  {
    10000 - YesRatioBps(yesPool, noPool)
  }

  /** The bettor's YES and NO stakes (`userWager?.yesAmount ?? 0n` and likewise for NO): zero
      for an absent wager, the wager's own amounts otherwise. */
  function Stakes(w: Option<Wager>): (r: (nat, nat))
    ensures w.None? ==> r == (0, 0)
    ensures w.Some? ==> r.0 == w.value.yesAmount && r.1 == w.value.noAmount
  {
    match w
    case None => (0, 0)
    case Some(x) => (x.yesAmount, x.noAmount)
  }

  /** The "Your position" block: hidden, or shown with a tile for each side holding a stake. */
  datatype PositionView = Hidden | Shown(yesTile: Option<nat>, noTile: Option<nat>)

  /** The position block is shown exactly when the bettor's exposure (both stakes together) is
      positive; each tile is shown exactly when its side's stake is positive and shows that stake,
      so a shown block is never empty, and an absent wager shows nothing. */
  function Position(w: Option<Wager>): (v: PositionView)
    ensures v.Shown? <==> Stakes(w).0 + Stakes(w).1 > 0
    ensures w.None? ==> v == Hidden
    ensures v.Shown? ==> (v.yesTile.Some? <==> Stakes(w).0 > 0) && (v.noTile.Some? <==> Stakes(w).1 > 0)
    ensures v.Shown? && v.yesTile.Some? ==> v.yesTile.value == Stakes(w).0
    ensures v.Shown? && v.noTile.Some? ==> v.noTile.value == Stakes(w).1
    ensures v.Shown? ==> v.yesTile.Some? || v.noTile.Some?
  {
    var (yes, no) := Stakes(w);
    if yes + no > 0 then
      Shown(if yes > 0 then Some(yes) else None, if no > 0 then Some(no) else None)
    else Hidden
  }

  /** The "Place a bet" button is rendered (instead of "Market closed"): never on a resolved
      market, never once the countdown has expired. */
  predicate BetButtonShown(status: Status, expired: bool)
    ensures status == Resolved ==> !BetButtonShown(status, expired)
    ensures expired ==> !BetButtonShown(status, expired)
  {
    status == Open && !expired
  }

  /** Evaluated with the countdown's `expired` for the same instant, the bet button is shown
      exactly for an active market. */
  lemma BetButtonMeansActive(m: Market, now: int)
    ensures BetButtonShown(m.status, m.deadline - now <= 0) <==> IsMarketActive(m, now)
  {
  }

  /** What a click on the bet button does. */
  datatype ClickAction = ConnectWallet | RejectClosed | OpenDialog

  /** `handleBetClick`'s guards, in order: no session or no wallet asks to connect; a closed or
      expired market is refused; otherwise the dialog opens. The dialog opens exactly when the
      wallet is connected and the button would be shown. */
  function BetClick(connected: bool, hasWallet: bool, status: Status, expired: bool): (a: ClickAction)
    ensures a == OpenDialog <==> connected && hasWallet && BetButtonShown(status, expired)
    ensures a == ConnectWallet <==> !(connected && hasWallet)
  {
    if !connected || !hasWallet then ConnectWallet
    else if status != Open || expired then RejectClosed
    else OpenDialog
  }

  /** The card's `showBetDialog` state. */
  class Card {
    var showBetDialog: bool

    constructor ()
      ensures !showBetDialog
    {
      showBetDialog := false;
    }

    /** `handleBetClick`: only an `OpenDialog` outcome changes the state, and it opens the dialog,
        which is then mounted (the click had a wallet address). */
    method HandleBetClick(authenticated: bool, hasWallet: bool, status: Status, expired: bool)
      returns (a: ClickAction)
      modifies this
      ensures a == BetClick(authenticated, hasWallet, status, expired)
      ensures showBetDialog == (old(showBetDialog) || a == OpenDialog)
      ensures a == OpenDialog ==> DialogMounted(hasWallet)
    {
      a := BetClick(authenticated, hasWallet, status, expired);
      if a == OpenDialog {
        showBetDialog := true;
      }
    }

    /** The dialog's `onClose`: the dialog unmounts whatever the wallet. */
    method CloseDialog()
      modifies this
      ensures !showBetDialog
      ensures !DialogMounted(true)
    {
      showBetDialog := false;
    }

    /** The dialog is mounted only while open and with a wallet address. */
    predicate DialogMounted(hasWallet: bool)
      reads this
    {
      showBetDialog && hasWallet
    }
  }
}
