/** The admin form that creates a market: its guard sequence, the write it sends and the reset of
    its fields. */
module CreateMarketForm {
  import opened Wrappers
  import opened Chain

  /** Whole seconds of a millisecond instant, rounded down (`Math.floor(ms / 1000)`). */
  function EpochSeconds(ms: int): (e: int)
    ensures e * 1000 <= ms < (e + 1) * 1000
  {
    ms / 1000
  }

  /** The deadline check compares whole seconds with the unrounded current time in seconds. For
      an integral deadline that is the same as comparing it with the current time in whole
      seconds, rounded down. */
  lemma DeadlineCheckInWholeSeconds(epoch: int, nowMs: int)
    ensures epoch * 1000 <= nowMs <==> epoch <= EpochSeconds(nowMs)
  {
    var n := EpochSeconds(nowMs);
    if epoch > n {
      assert epoch * 1000 >= (n + 1) * 1000;
    }
  }

  /** A deadline in milliseconds passes the check exactly when it lies in a later whole second
      than the current time. */
  lemma FutureDeadline(deadlineMs: int, nowMs: int)
    ensures EpochSeconds(deadlineMs) * 1000 > nowMs <==> EpochSeconds(deadlineMs) > EpochSeconds(nowMs)
  {
    DeadlineCheckInWholeSeconds(EpochSeconds(deadlineMs), nowMs);
  }

  /** The form's fields (`deadline` is the text of the date-time input), its `submitting` flag,
      the write in flight, the writes handed to the wallet, and how often a wallet connection was
      requested. `metadataBase` is the configured metadata prefix the URI field starts from. */
  class Form {
    const metadataBase: string
    var title: string
    var description: string
    var deadline: string
    var metadataUri: string
    var submitting: bool
    var phase: Phase
    var sent: seq<Tx>
    var connectRequests: nat

    /** `submitting` is set exactly while a market creation is in flight, and that write is the
        last one handed to the wallet. */
    ghost predicate Valid()
      reads this
    {
      (submitting <==> !phase.Idle?)
      && (!phase.Idle? ==> phase.tx.CreateMarket? && sent != [] && sent[|sent| - 1] == phase.tx)
    }

    /** Empty fields, except the metadata URI, which starts from the configured base. */
    predicate Cleared()
      reads this
    {
      title == "" && description == "" && deadline == "" && metadataUri == metadataBase
    }

    constructor (metadataBase: string)
      ensures Valid() && Cleared() && this.metadataBase == metadataBase
      ensures !submitting && phase == Idle && sent == [] && connectRequests == 0
    {
      this.metadataBase := metadataBase;
      title := "";
      description := "";
      deadline := "";
      metadataUri := metadataBase;
      submitting := false;
      phase := Idle;
      sent := [];
      connectRequests := 0;
    }

    /** Typing into the four inputs (they stay editable while a write is in flight). */
    method Edit(title: string, description: string, deadline: string, metadataUri: string)
      modifies this`title, this`description, this`deadline, this`metadataUri
      ensures this.title == title && this.description == description
      ensures this.deadline == deadline && this.metadataUri == metadataUri
    {
      this.title := title;
      this.description := description;
      this.deadline := deadline;
      this.metadataUri := metadataUri;
    }

    /** "Reset form", which is never disabled. */
    method Reset()
      modifies this`title, this`description, this`deadline, this`metadataUri
      ensures Cleared()
    {
      title := "";
      description := "";
      deadline := "";
      metadataUri := metadataBase;
    }

    /** `handleSubmit`, up to the wallet. `deadlineMs` is the parsed deadline field (`None` for a
        date the parser rejects, whose time is `NaN`), `nowMs` the clock. In order: the submit
        button is disabled while submitting; without a connection only a connection is
        requested; an empty field rejects; a deadline whose whole second is not after now
        rejects; an unparseable deadline or a missing client fails; otherwise the creation is
        handed to the wallet with the fields and the deadline in whole seconds. The fields are
        never changed here, and no exit but the hand-over leaves `submitting` set. */
    method Submit(connected: bool, deadlineMs: Option<int>, nowMs: int, clientReady: bool)
      returns (r: Step)
      requires Valid()
      modifies this`submitting, this`phase, this`sent, this`connectRequests
      ensures Valid()
      ensures old(submitting) ==> r == Ignored && unchanged(this)
      ensures !old(submitting) && !connected ==>
        r == ConnectWallet && connectRequests == old(connectRequests) + 1 && sent == old(sent) && phase == Idle
      ensures connected || old(submitting) ==> connectRequests == old(connectRequests)
      ensures !old(submitting) && connected && (title == "" || description == "" || deadline == "" || metadataUri == "") ==>
        r == Rejected && sent == old(sent) && phase == Idle
      ensures !old(submitting) && connected && title != "" && description != "" && deadline != "" && metadataUri != "" ==>
        match deadlineMs
        case Some(ms) =>
          var epoch := EpochSeconds(ms);
          if epoch * 1000 <= nowMs then r == Rejected && sent == old(sent) && phase == Idle
          else if !clientReady then r == Failed && sent == old(sent) && phase == Idle
          else
            var tx := CreateMarket(title, description, epoch, metadataUri);
            r == AwaitingSignature && sent == old(sent) + [tx] && phase == Signing(tx)
        case None => r == Failed && sent == old(sent) && phase == Idle
    {
      if submitting {
        return Ignored;
      }
      if !connected {
        connectRequests := connectRequests + 1;
        return ConnectWallet;
      }
      if title == "" || description == "" || deadline == "" || metadataUri == "" {
        return Rejected;
      }
      submitting := true;
      if deadlineMs.Some? && EpochSeconds(deadlineMs.value) * 1000 <= nowMs {
        submitting := false;
        return Rejected;
      }
      if !clientReady || deadlineMs.None? {
        // a missing client throws; `BigInt(NaN)` throws while the arguments are built
        submitting := false;
        return Failed;
      }
      var tx := CreateMarket(title, description, EpochSeconds(deadlineMs.value), metadataUri);
      sent := sent + [tx];
      phase := Signing(tx);
      r := AwaitingSignature;
    }

    /** The wallet returned: a hash moves on to the receipt wait; a rejection fails with the
        fields untouched. */
    method Signed(ok: bool)
      requires Valid() && phase.Signing?
      modifies this`submitting, this`phase
      ensures Valid()
      ensures ok ==> phase == Confirming(old(phase).tx) && submitting
      ensures !ok ==> phase == Idle && !submitting
    {
      if ok {
        phase := Confirming(phase.tx);
      } else {
        phase := Idle;
        submitting := false;
      }
    }

    /** The receipt wait ended: success clears the form back to its initial fields, failure
        leaves them as they are; either way `submitting` is false. */
    method Confirmed(ok: bool)
      requires Valid() && phase.Confirming?
      modifies this`submitting, this`phase, this`title, this`description, this`deadline, this`metadataUri
      ensures Valid() && phase == Idle && !submitting
      ensures ok ==> Cleared()
      ensures !ok ==> (title == old(title) && description == old(description)
                       && deadline == old(deadline) && metadataUri == old(metadataUri))
    {
      if ok {
        title := "";
        description := "";
        deadline := "";
        metadataUri := metadataBase;
      }
      phase := Idle;
      submitting := false;
    }
  }
}
