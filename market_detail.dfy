/** The market detail page: what it renders for a loaded market, and its own bet-dialog state. */
module MarketDetail {
  import opened Wrappers
  import opened MarketTypes
  import opened MarketCard

  /** What the page shows: the loading view, or the loaded page with its conditional parts. */
  datatype DetailView =
    | LoadingView
    | Loaded(
        yesBps: nat,
        noBps: nat,
        outcomeChip: Option<Outcome>,
        betButton: bool,
        position: PositionView,
        resolutionPanel: bool,
        betDialog: bool)

  /** The page for a market query that may still be loading or empty. While loading or without a
      market only the loading view renders. Otherwise the ratio bar and the position panel are the
      card's (`YesRatioBps`, `NoRatioBps`, `Position`) for the market's pools and wager, the shares sum to 10000 basis points
      (5000 each for empty pools), the outcome chip appears only on a resolved market and names
      its outcome, the bet button only on an open unexpired market, the position panel only for
      a positive exposure, the resolution panel only for an admin, and the bet dialog only when
      open with a wallet address. */
  function View(isLoading: bool, market: Option<MarketWithWager>, expired: bool, isAdmin: bool,
                showBetDialog: bool, hasWallet: bool): (v: DetailView)
    ensures v.LoadingView? <==> isLoading || market.None?
    ensures v.Loaded? ==> v.yesBps == YesRatioBps(market.value.market.yesPool, market.value.market.noPool)
    ensures v.Loaded? ==> v.noBps == NoRatioBps(market.value.market.yesPool, market.value.market.noPool)
    ensures v.Loaded? ==> v.yesBps + v.noBps == 10000
    ensures v.Loaded? && market.value.market.yesPool + market.value.market.noPool == 0 ==>
              v.yesBps == 5000 && v.noBps == 5000
    ensures v.Loaded? ==> (v.outcomeChip.Some? <==> market.value.market.status == Resolved)
    ensures v.Loaded? && v.outcomeChip.Some? ==> v.outcomeChip.value == market.value.market.outcome
    ensures v.Loaded? ==> (v.betButton <==> market.value.market.status == Open && !expired)
    ensures v.Loaded? ==> v.position == Position(market.value.userWager)
    ensures v.Loaded? ==> (v.position.Shown? <==>
              Stakes(market.value.userWager).0 + Stakes(market.value.userWager).1 > 0)
    ensures v.Loaded? ==> (v.resolutionPanel <==> isAdmin)
    ensures v.Loaded? ==> (v.betDialog <==> showBetDialog && hasWallet)
  {
    if isLoading || market.None? then LoadingView
    else
      var m := market.value.market;
      Loaded(
        YesRatioBps(m.yesPool, m.noPool),
        NoRatioBps(m.yesPool, m.noPool),
        if m.status == Resolved then Some(m.outcome) else None,
        BetButtonShown(m.status, expired),
        Position(market.value.userWager),
        isAdmin,
        showBetDialog && hasWallet)
  }

  /** The page's `showBetDialog` state. */
  class DetailPage {
    var showBetDialog: bool

    constructor ()
      ensures !showBetDialog
    {
      showBetDialog := false;
    }

    /** `handleBetClick` (same guards as the card, with `isConnected`): not connected asks to
        connect, a closed or expired market is refused, and only an opened dialog changes state. */
    method HandleBetClick(isConnected: bool, hasWallet: bool, status: Status, expired: bool)
      returns (a: ClickAction)
      modifies this
      ensures a == BetClick(isConnected, hasWallet, status, expired)
      ensures showBetDialog == (old(showBetDialog) || a == OpenDialog)
    {
      a := BetClick(isConnected, hasWallet, status, expired);
      if a == OpenDialog {
        showBetDialog := true;
      }
    }

    /** The dialog's `onClose`. */
    method CloseDialog()
      modifies this
      ensures !showBetDialog
    {
      showBetDialog := false;
    }
  }

  /** A connected click on a loaded page opens the dialog exactly when the page shows the bet
      button, so a click can never open the dialog for a closed market. */
  lemma ClickMatchesButton(market: MarketWithWager, expired: bool, isAdmin: bool, showBetDialog: bool)
    ensures var v := View(false, Some(market), expired, isAdmin, showBetDialog, true);
      (BetClick(true, true, market.market.status, expired) == OpenDialog) <==> v.betButton
  {
  }
}
