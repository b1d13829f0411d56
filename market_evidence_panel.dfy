/** The evidence panel: the guard chain of `handleUpload`, the choice between a typed URL and an
    uploaded file, the URI the upload endpoint returns, and what a confirmed submission clears. */
module MarketEvidencePanel {
  import opened Wrappers
  import opened Text
  import opened Chain

  /** Where the evidence URI comes from once the guards have passed: the trimmed typed URL when it
      is not blank; otherwise an upload of the attached file; with neither, nothing. */
  datatype Source = Direct(uri: string) | Upload | Unresolved

  /** The typed URL, trimmed, takes precedence; the file is uploaded only when that is empty. */
  function EvidenceSource(evidenceUrl: string, hasFile: bool): (src: Source)
    ensures src.Direct? <==> Trim(evidenceUrl) != ""
    ensures src.Direct? ==> src.uri == Trim(evidenceUrl) && src.uri != ""
    ensures src.Upload? <==> Trim(evidenceUrl) == "" && hasFile
  {
    var uri := Trim(evidenceUrl);
    if uri != "" then Direct(uri)
    else if hasFile then Upload
    else Unresolved
  }

  /** A URL of white space only, with no file, passes the "file or URL" guard but resolves to
      nothing, so no write follows. */
  lemma BlankUrlResolvesNothing(evidenceUrl: string)
    requires evidenceUrl != "" && forall i :: 0 <= i < |evidenceUrl| ==> IsSpace(evidenceUrl[i])
    ensures EvidenceSource(evidenceUrl, false) == Unresolved
  {
    var a, b := TrimInfix(evidenceUrl);
  }

  /** The upload endpoint's answer: a failed request or an unreadable body, or a JSON body whose
      `uri` and `url` fields are strings or absent. */
  datatype UploadResponse = UploadFailed | Body(uri: Option<string>, url: Option<string>)

  /** `data.uri ?? data.url ?? ""`: a present `uri` wins, even an empty one; `url` is used only
      when `uri` is absent. */
  function ResponseUri(uri: Option<string>, url: Option<string>): (r: string)
    ensures uri.Some? ==> r == uri.value
    ensures uri.None? && url.Some? ==> r == url.value
    ensures uri.None? && url.None? ==> r == ""
  {
    if uri.Some? then uri.value else url.GetOr("")
  }

  /** Where an upload stands: nothing in flight; the file posted and the response awaited (the
      handler saw the client as `clientReady` when pressed); the submission handed to the wallet;
      or the submission sent and its receipt awaited. */
  datatype Stage = Ready | Uploading(clientReady: bool) | Sending(tx: Tx) | Receiving(tx: Tx)

  /** One panel for one market: the attached file (by name) and the typed URL, the `uploading`
      flag, the stage, the writes handed to the wallet, the files posted to the upload endpoint,
      the cached queries invalidated, and how often a wallet connection was requested.
      `uploadUrl` is the configured upload endpoint, "" when unset. */
  class Panel {
    const marketId: nat
    const uploadUrl: string
    var file: Option<string>
    var evidenceUrl: string
    var uploading: bool
    var stage: Stage
    var sent: seq<Tx>
    var uploads: seq<string>
    var invalidated: seq<QueryKey>
    var connectRequests: nat

    /** `uploading` is set exactly while an upload or a submission is in flight, and a write in
        flight is an evidence submission for this market, the last write handed over. */
    ghost predicate Valid()
      reads this
    {
      (uploading <==> !stage.Ready?)
      && ((stage.Sending? || stage.Receiving?) ==>
            stage.tx.SubmitEvidence? && stage.tx.marketId == marketId && stage.tx.uri != ""
            && sent != [] && sent[|sent| - 1] == stage.tx)
    }

    constructor (marketId: nat, uploadUrl: string)
      ensures Valid() && this.marketId == marketId && this.uploadUrl == uploadUrl
      ensures file == None && evidenceUrl == "" && !uploading && stage == Ready
      ensures sent == [] && uploads == [] && invalidated == [] && connectRequests == 0
    {
      this.marketId := marketId;
      this.uploadUrl := uploadUrl;
      file := None;
      evidenceUrl := "";
      uploading := false;
      stage := Ready;
      sent := [];
      uploads := [];
      invalidated := [];
      connectRequests := 0;
    }

    /** Choosing a file (or clearing the choice) and typing a URL. */
    method Edit(file: Option<string>, evidenceUrl: string)
      modifies this`file, this`evidenceUrl
      ensures this.file == file && this.evidenceUrl == evidenceUrl
    {
      this.file := file;
      this.evidenceUrl := evidenceUrl;
    }

    /** Hands the submission of `uri` to the wallet, or fails without a write when there is no
        client. */
    method Submit(uri: string, clientReady: bool) returns (r: Step)
      requires uri != "" && uploading && (stage.Ready? || stage.Uploading?)
      modifies this`uploading, this`stage, this`sent
      ensures Valid() && uploads == old(uploads)
      ensures clientReady ==> (r == AwaitingSignature && stage == Sending(SubmitEvidence(marketId, uri))
                               && uploading && sent == old(sent) + [SubmitEvidence(marketId, uri)])
      ensures !clientReady ==> r == Failed && stage == Ready && !uploading && sent == old(sent)
    {
      if !clientReady {
        stage := Ready;
        uploading := false;
        return Failed;
      }
      var tx := SubmitEvidence(marketId, uri);
      sent := sent + [tx];
      stage := Sending(tx);
      r := AwaitingSignature;
    }

    /** `handleUpload`, up to its first wait. In order: the button is disabled while uploading;
        without a connection only a connection is requested; with neither a file nor a URL, or
        with no upload endpoint configured, it rejects before any network call; then the typed
        URL, trimmed, is submitted directly, or else the file is posted, or else nothing is
        resolved and it rejects. The file and the URL are never changed here. */
    method Press(connected: bool, clientReady: bool) returns (r: Step)
      requires Valid()
      modifies this`uploading, this`stage, this`sent, this`uploads, this`connectRequests
      ensures Valid()
      ensures old(uploading) ==> r == Ignored && unchanged(this)
      ensures !old(uploading) && !connected ==>
        r == ConnectWallet && connectRequests == old(connectRequests) + 1
        && sent == old(sent) && uploads == old(uploads) && stage == Ready
      ensures connected || old(uploading) ==> connectRequests == old(connectRequests)
      ensures !old(uploading) && connected && ((file.None? && evidenceUrl == "") || uploadUrl == "") ==>
        r == Rejected && sent == old(sent) && uploads == old(uploads) && stage == Ready
      ensures !old(uploading) && connected && (file.Some? || evidenceUrl != "") && uploadUrl != "" ==>
        match EvidenceSource(evidenceUrl, file.Some?)
        case Direct(uri) =>
          uploads == old(uploads)
          && (if clientReady then
                r == AwaitingSignature && stage == Sending(SubmitEvidence(marketId, uri)) && uploading
                && sent == old(sent) + [SubmitEvidence(marketId, uri)]
              else r == Failed && sent == old(sent) && stage == Ready && !uploading)
        case Upload =>
          r == AwaitingUpload && stage == Uploading(clientReady) && uploading
          && uploads == old(uploads) + [file.value] && sent == old(sent)
        case Unresolved =>
          r == Rejected && sent == old(sent) && uploads == old(uploads) && stage == Ready && !uploading
    {
      if uploading {
        return Ignored;
      }
      if !connected {
        connectRequests := connectRequests + 1;
        return ConnectWallet;
      }
      if file.None? && evidenceUrl == "" {
        return Rejected;
      }
      if uploadUrl == "" {
        return Rejected;
      }
      r := Resolve(EvidenceSource(evidenceUrl, file.Some?), clientReady);
    }

    /** The part of `handleUpload` past its guards, up to its first wait: the typed URL, trimmed,
        is submitted directly; or else the file is posted; or else nothing is resolved and the
        handler rejects. `src` is where the evidence comes from, as the handler resolves it. */
    method Resolve(src: Source, clientReady: bool) returns (r: Step)
      requires Valid() && !uploading
      requires src.Direct? ==> src.uri != ""
      requires src.Upload? ==> file.Some?
      modifies this`uploading, this`stage, this`sent, this`uploads
      ensures Valid()
      ensures src.Direct? ==> uploads == old(uploads)
      ensures src.Direct? && clientReady ==>
        r == AwaitingSignature && stage == Sending(SubmitEvidence(marketId, src.uri)) && uploading
        && sent == old(sent) + [SubmitEvidence(marketId, src.uri)]
      ensures src.Direct? && !clientReady ==> r == Failed && sent == old(sent) && stage == Ready && !uploading
      ensures src.Upload? ==>
        r == AwaitingUpload && stage == Uploading(clientReady) && uploading
        && uploads == old(uploads) + [file.value] && sent == old(sent)
      ensures src.Unresolved? ==>
        r == Rejected && sent == old(sent) && uploads == old(uploads) && stage == Ready && !uploading
    {
      uploading := true;
      match src
      case Upload =>
        uploads := uploads + [file.value];
        stage := Uploading(clientReady);
        r := AwaitingUpload;
      case Unresolved =>
        uploading := false;
        r := Rejected;
      case Direct(uri) =>
        r := Submit(uri, clientReady);
    }

    /** The upload endpoint answered. A failed request, or a body that yields an empty URI, fails
        without a write; otherwise the returned URI is submitted. */
    method UploadReturned(response: UploadResponse) returns (r: Step)
      requires Valid() && stage.Uploading?
      modifies this`uploading, this`stage, this`sent
      ensures Valid()
      ensures response.UploadFailed? ==> r == Failed && stage == Ready && !uploading && sent == old(sent)
      ensures response.Body? && ResponseUri(response.uri, response.url) == "" ==>
        r == Failed && stage == Ready && !uploading && sent == old(sent)
      ensures response.Body? && ResponseUri(response.uri, response.url) != "" ==>
        var tx := SubmitEvidence(marketId, ResponseUri(response.uri, response.url));
        if old(stage).clientReady then r == AwaitingSignature && stage == Sending(tx) && sent == old(sent) + [tx]
        else r == Failed && stage == Ready && !uploading && sent == old(sent)
    {
      if response.UploadFailed? {
        stage := Ready;
        uploading := false;
        return Failed;
      }
      var uri := ResponseUri(response.uri, response.url);
      if uri == "" {
        stage := Ready;
        uploading := false;
        return Failed;
      }
      r := Submit(uri, stage.clientReady);
    }

    /** The wallet returned: a hash moves on to the receipt wait; a rejection fails. */
    method Signed(ok: bool)
      requires Valid() && stage.Sending?
      modifies this`uploading, this`stage
      ensures Valid()
      ensures ok ==> stage == Receiving(old(stage).tx) && uploading
      ensures !ok ==> stage == Ready && !uploading
    {
      if ok {
        stage := Receiving(stage.tx);
      } else {
        stage := Ready;
        uploading := false;
      }
    }

    /** The receipt wait ended. Success clears the file and the URL and invalidates this market's
        cached read; failure leaves all three alone. Either way `uploading` is false. */
    method Confirmed(ok: bool)
      requires Valid() && stage.Receiving?
      modifies this`uploading, this`stage, this`file, this`evidenceUrl, this`invalidated
      ensures Valid() && stage == Ready && !uploading
      ensures ok ==> file == None && evidenceUrl == "" && invalidated == old(invalidated) + [MarketQuery(marketId)]
      ensures !ok ==> file == old(file) && evidenceUrl == old(evidenceUrl) && invalidated == old(invalidated)
    {
      if ok {
        file := None;
        evidenceUrl := "";
        invalidated := invalidated + [MarketQuery(marketId)];
      }
      stage := Ready;
      uploading := false;
    }
  }
}
