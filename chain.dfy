/** The writes the front end hands to the wallet, and the stages of an in-flight write. */
module Chain {

  /** A registry or token write with its arguments as sent. */
  datatype Tx =
    | CreateMarket(title: string, description: string, deadline: int, metadataUri: string)
    | PlaceBet(marketId: nat, side: nat, amount: int)
    | SubmitEvidence(marketId: nat, uri: string)
    | ResolveMarket(marketId: nat, outcome: nat)
    | Approve(allowance: nat)

  /** Where a handler's write stands: none in flight; handed to the wallet and waiting for it to
      be signed and sent (`writeContractAsync`); or sent and waiting for its receipt
      (`waitForTransactionReceipt`). */
  datatype Phase = Idle | Signing(tx: Tx) | Confirming(tx: Tx)

  /** What one press of a button led to, up to the handler's next suspension or its exit. */
  datatype Step =
    | Ignored            // the button is disabled
    | ConnectWallet      // not connected: a wallet connection is requested instead
    | Rejected           // a local validation failed before any network call
    | Failed             // the handler threw before handing a write to the wallet
    | AwaitingUpload     // the evidence file is being posted to the upload endpoint
    | AwaitingSignature  // a write was handed to the wallet

  /** A cached read that a successful write invalidates. */
  datatype QueryKey = MarketQuery(marketId: nat)

  /** The allowance an approval grants: one million tokens of six decimals, whatever the stake. */
  const MaxAllowance: nat := 1_000_000 * 1_000_000
}
