/**
 * The single-slot QR hand-off of the QR manager server: what an admin
 * submission does to the two stored slots, and what a client's scan page shows
 * for a requested client id.
 *
 * The store holds two independent string slots, the current client id and the
 * current QR string; a slot is None while its file does not exist. Everything
 * here is a pure function of the slots; the object that holds them and the
 * method that updates them are in module SessionStore.
 */
module HandOff {
  import opened JsText

  datatype Option<T> = None | Some(value: T)

  // ---------------------------------------------------------------------------
  // Admin write path: POST /set-qr
  // ---------------------------------------------------------------------------

  /** A form field as the extended urlencoded body parser delivers it: missing,
      a string, or an array/object (repeated or bracketed keys). */
  datatype FormField = Absent | Text(text: string) | Structured

  /** The two stored slots. */
  datatype Slots = Slots(clientId: Option<string>, qrString: Option<string>)

  /** The submission once both fields passed validation (untrimmed). */
  datatype Submission = Submission(qrString: string, clientId: string)

  /** Whether each of the two file writes succeeded. */
  datatype WriteOutcomes = WriteOutcomes(qrWritten: bool, clientWritten: bool)

  /** The outcome reported to the admin. */
  datatype Status = Saved | StorageFailure | InvalidRequest

  function StatusCode(st: Status): int {
    match st
    case Saved => 200
    case StorageFailure => 500
    case InvalidRequest => 400
  }

  /** A JavaScript value that is both truthy and of type string. */
  predicate IsTruthyString(f: FormField) {
    f.Text? && f.text != ""
  }

  /** Validation: both fields must be non-empty strings. Nothing is trimmed at
      this point, so a whitespace-only value passes. */
  function Validate(qr: FormField, client: FormField): (r: Option<Submission>)
    ensures r.Some? <==> IsTruthyString(qr) && IsTruthyString(client)
    ensures r.Some? ==> qr == Text(r.value.qrString) && client == Text(r.value.clientId)
  {
    if IsTruthyString(qr) && IsTruthyString(client) then
      Some(Submission(qr.text, client.text))
    else
      None
  }

  /** A whole submission: validation, then the QR write and the client-id write,
      each of trimmed text, each landing or failing on its own, with no rollback.
      Gives the new slots and the status. */
  function SubmitEffect(s: Slots, qr: FormField, client: FormField, w: WriteOutcomes): (r: (Slots, Status))
    ensures Validate(qr, client).None? ==> r == (s, InvalidRequest) && StatusCode(r.1) == 400
    ensures StatusCode(r.1) == 200 <==> (Validate(qr, client).Some? && w.qrWritten && w.clientWritten)
    ensures StatusCode(r.1) == 500 <==> (Validate(qr, client).Some? && !(w.qrWritten && w.clientWritten))
    ensures r.0.qrString
              == if Validate(qr, client).Some? && w.qrWritten then Some(Trim(qr.text)) else s.qrString
    ensures r.0.clientId
              == if Validate(qr, client).Some? && w.clientWritten then Some(Trim(client.text)) else s.clientId
  {
    match Validate(qr, client)
    case None => (s, InvalidRequest)
    case Some(sub) =>
      var q := if w.qrWritten then Some(Trim(sub.qrString)) else s.qrString;
      var c := if w.clientWritten then Some(Trim(sub.clientId)) else s.clientId;
      (Slots(c, q), if w.qrWritten && w.clientWritten then Saved else StorageFailure)
  }

  /** The id in the confirmation page's link (/scan/<id>), as written: the
      submitted client id, untrimmed. It is the id that was stored exactly when
      the submitted id has no surrounding whitespace. */
  function ConfirmationLinkId(client: string): (id: string)
    ensures id == Trim(client) <==> HasSolidEnds(client)
  {
    TrimFixedIff(client);
    client
  }

  /** The confirmation link's id as evidently intended: the id that was stored. */
  function CorrectedConfirmationLinkId(client: string): (id: string)
    ensures HasSolidEnds(id)
    ensures |id| <= |client|
    ensures forall s: Slots, qr: FormField, w: WriteOutcomes {:trigger SubmitEffect(s, qr, Text(client), w)} ::
      (w.clientWritten && Validate(qr, Text(client)).Some?) ==> SubmitEffect(s, qr, Text(client), w).0.clientId == Some(id)
  {
    Trim(client)
  }

  // ---------------------------------------------------------------------------
  // Client read path: GET /scan/:clientId, and the admin status line
  // ---------------------------------------------------------------------------

  /** The image the QR encoder produces, identified by the text it encodes. */
  datatype QrImage = QrImage(payload: string)

  /** What the scan page decides to show. ReadFault is the QR file read that
      throws on a matching id: that read is not guarded, so no page is sent. */
  datatype ScanView =
    | Inactive(activeClient: string)
    | Pending
    | Rendered(image: QrImage)
    | RenderError
    | ReadFault

  /** The notices the scan page can show instead of an image. */
  datatype Notice = NotActiveNotice(activeClient: string) | WaitingNotice | GenerationErrorNotice

  /** The scan page's body: the image if there is one, otherwise the notice. */
  datatype PageBody = ShowImage(image: QrImage) | ShowNotice(notice: Notice)

  /** Reading the client-id file under try/catch: a failed read leaves "". */
  function ClientIdRead(clientRead: Option<string>): string {
    match clientRead
    case Some(c) => c
    case None => ""
  }

  /** `current || 'None'`: how both pages name the active client. */
  function ActiveClientLabel(current: string): string {
    if current == "" then "None" else current
  }

  /** The requester is the active client: a non-empty id equal, exactly and
      untrimmed, to the stored one. */
  predicate IsActiveFor(requested: string, clientRead: Option<string>) {
    requested != "" && requested == ClientIdRead(clientRead)
  }

  /** The scan decision, from the requested id, the two slot reads (None for a
      read that throws) and whether the encoder succeeds on the stored text. */
  function View(requested: string, clientRead: Option<string>, qrRead: Option<string>, encodes: bool): (v: ScanView)
    ensures v.Inactive? <==> requested == "" || clientRead != Some(requested)
    ensures v.Inactive? ==> v.activeClient != "" && (clientRead == Some(v.activeClient) || v.activeClient == "None")
    ensures v.Inactive? ==> v.activeClient == AdminStatus(clientRead)
    ensures v.Rendered? ==> qrRead == Some(v.image.payload) && v.image.payload != "" && encodes
    ensures v.Pending? <==> !v.Inactive? && qrRead == Some("")
    ensures v.ReadFault? <==> !v.Inactive? && qrRead.None?
    ensures v.RenderError? <==> !v.Inactive? && qrRead.Some? && qrRead.value != "" && !encodes
  {
    if !IsActiveFor(requested, clientRead) then
      Inactive(ActiveClientLabel(ClientIdRead(clientRead)))
    else
      match qrRead
      case None => ReadFault
      case Some(q) =>
        if q == "" then Pending
        else if encodes then Rendered(QrImage(q))
        else RenderError
  }

  /** The page sent back: the image if one was produced, otherwise the notice;
      nothing when the QR read threw. */
  function Page(v: ScanView): (p: Option<PageBody>)
    ensures p.None? <==> v.ReadFault?
    ensures p.Some? && p.value.ShowImage? <==> v.Rendered?
    ensures v.Rendered? ==> p == Some(ShowImage(v.image))
    ensures v.Inactive? ==> p == Some(ShowNotice(NotActiveNotice(v.activeClient)))
    ensures v.Pending? ==> p == Some(ShowNotice(WaitingNotice))
    ensures v.RenderError? ==> p == Some(ShowNotice(GenerationErrorNotice))
  {
    match v
    case Inactive(active) => Some(ShowNotice(NotActiveNotice(active)))
    case Pending => Some(ShowNotice(WaitingNotice))
    case Rendered(img) => Some(ShowImage(img))
    case RenderError => Some(ShowNotice(GenerationErrorNotice))
    case ReadFault => None
  }

  /** The admin page's status line: the stored client id, or "None". */
  function AdminStatus(clientRead: Option<string>): (shown: string)
    ensures shown != ""
    ensures clientRead == Some(shown) || (shown == "None" && ClientIdRead(clientRead) == "")
  {
    ActiveClientLabel(ClientIdRead(clientRead))
  }

  /** The id in the admin page's link to the active client's scan page
      (`currentClient || ''`): empty when no client id can be read, otherwise
      the one id the scan page treats as active. */
  function AdminLinkId(clientRead: Option<string>): (id: string)
    ensures id == "" <==> clientRead.None? || clientRead == Some("")
    ensures id != "" ==> IsActiveFor(id, clientRead)
    ensures forall requested :: IsActiveFor(requested, clientRead) ==> requested == id
  {
    ClientIdRead(clientRead)
  }

  // ---------------------------------------------------------------------------
  // Properties of the write path
  // ---------------------------------------------------------------------------

  /** A rejected submission (400) writes nothing. */
  lemma InvalidSubmitChangesNothing(s: Slots, qr: FormField, client: FormField, w: WriteOutcomes)
    requires !IsTruthyString(qr) || !IsTruthyString(client)
    ensures SubmitEffect(s, qr, client, w) == (s, InvalidRequest)
  {
  }

  /** A whitespace-only field passes validation, and is stored as "". */
  lemma {:induction false} WhitespaceOnlyPasses(s: Slots, qr: string, client: string, w: WriteOutcomes)
    requires qr != "" && client != ""
    requires AllTrimmable(client)
    ensures Validate(Text(qr), Text(client)).Some?
    ensures w.clientWritten ==> SubmitEffect(s, Text(qr), Text(client), w).0.clientId == Some("")
  {
    TrimEmptyIff(client);
  }

  /** A submission whose writes both succeed replaces the whole session: the
      result does not depend on what was stored before. */
  lemma SavedReplacesSession(s1: Slots, s2: Slots, qr: FormField, client: FormField)
    requires Validate(qr, client).Some?
    ensures var w := WriteOutcomes(true, true);
      SubmitEffect(s1, qr, client, w) == SubmitEffect(s2, qr, client, w)
      && SubmitEffect(s1, qr, client, w).0 == Slots(Some(Trim(client.text)), Some(Trim(qr.text)))
  {
  }

  /** Submitting the same form twice is submitting it once with every write
      that landed in either attempt. */
  lemma SubmitTwiceJoins(s: Slots, qr: FormField, client: FormField, w1: WriteOutcomes, w2: WriteOutcomes)
    ensures var joined := WriteOutcomes(w1.qrWritten || w2.qrWritten, w1.clientWritten || w2.clientWritten);
      SubmitEffect(SubmitEffect(s, qr, client, w1).0, qr, client, w2).0 == SubmitEffect(s, qr, client, joined).0
  {
  }

  /** Idempotence: the same form with the same write outcomes, twice, leaves the
      same slots and reports the same status as once. */
  lemma SubmitIdempotent(s: Slots, qr: FormField, client: FormField, w: WriteOutcomes)
    ensures SubmitEffect(SubmitEffect(s, qr, client, w).0, qr, client, w) == SubmitEffect(s, qr, client, w)
  {
    SubmitTwiceJoins(s, qr, client, w, w);
  }

  /** No rollback: when the client-id write fails and the QR write lands, the
      previous client is served the new QR string. */
  lemma PartialWriteServesOldClient(s: Slots, qr: FormField, client: FormField, previous: string)
    requires Validate(qr, client).Some?
    requires previous != "" && s.clientId == Some(previous)
    requires !AllTrimmable(qr.text)
    ensures var r := SubmitEffect(s, qr, client, WriteOutcomes(true, false));
      StatusCode(r.1) == 500
      && View(previous, r.0.clientId, r.0.qrString, true) == Rendered(QrImage(Trim(qr.text)))
  {
    TrimEmptyIff(qr.text);
  }

  // ---------------------------------------------------------------------------
  // Properties of the read path
  // ---------------------------------------------------------------------------

  /** An inactive view does not depend on the stored QR string or the encoder:
      it cannot reveal the QR string. */
  lemma InactiveViewIgnoresQr(requested: string, clientRead: Option<string>,
                              q1: Option<string>, e1: bool, q2: Option<string>, e2: bool)
    requires !IsActiveFor(requested, clientRead)
    ensures View(requested, clientRead, q1, e1) == View(requested, clientRead, q2, e2)
    ensures Page(View(requested, clientRead, q1, e1)) == Some(ShowNotice(NotActiveNotice(AdminStatus(clientRead))))
  {
  }

  /** An empty requested id is inactive whatever is stored. */
  lemma EmptyRequestInactive(clientRead: Option<string>, qrRead: Option<string>, encodes: bool)
    ensures View("", clientRead, qrRead, encodes) == Inactive(AdminStatus(clientRead))
  {
  }

  /** The scan page is active for exactly one requested id, the admin page's
      link id, and for none when that link id is empty. */
  lemma AdminAgreesWithScan(requested: string, clientRead: Option<string>, qrRead: Option<string>, encodes: bool)
    ensures var active := AdminLinkId(clientRead);
      !View(requested, clientRead, qrRead, encodes).Inactive? <==> (active != "" && requested == active)
  {
  }

  /** The hand-off: after a saved submission, the stored client's scan page
      shows an image of exactly the trimmed QR string (or the generation error),
      or waits when that string trimmed to "". */
  lemma {:induction false} HandOffRoundTrip(s: Slots, qr: FormField, client: FormField, encodes: bool)
    requires Validate(qr, client).Some?
    requires !AllTrimmable(client.text)
    ensures var r := SubmitEffect(s, qr, client, WriteOutcomes(true, true));
      var v := View(Trim(client.text), r.0.clientId, r.0.qrString, encodes);
      r.1 == Saved
      && (AllTrimmable(qr.text) ==> v == Pending)
      && (!AllTrimmable(qr.text) && encodes ==> v == Rendered(QrImage(Trim(qr.text))))
      && (!AllTrimmable(qr.text) && !encodes ==> v == RenderError)
  {
    TrimEmptyIff(client.text);
    TrimEmptyIff(qr.text);
  }

  /** A later saved submission for another client retires the earlier one. */
  lemma {:induction false} LaterSubmitRetiresEarlierClient(
    s: Slots, qr: FormField, client: FormField, earlier: string, qrRead: Option<string>, encodes: bool)
    requires Validate(qr, client).Some?
    requires !AllTrimmable(client.text) && earlier != Trim(client.text)
    ensures var r := SubmitEffect(s, qr, client, WriteOutcomes(true, true));
      View(earlier, r.0.clientId, r.0.qrString, encodes) == Inactive(Trim(client.text))
  {
    TrimEmptyIff(client.text);
  }

  /** A whitespace-only client id, once stored, locks every requester out:
      every scan page is inactive and names "None". */
  lemma {:induction false} WhitespaceClientLocksOut(
    s: Slots, qr: FormField, client: FormField, w: WriteOutcomes, requested: string, encodes: bool)
    requires Validate(qr, client).Some? && w.clientWritten
    requires AllTrimmable(client.text)
    ensures var r := SubmitEffect(s, qr, client, w);
      View(requested, r.0.clientId, r.0.qrString, encodes) == Inactive("None")
  {
    TrimEmptyIff(client.text);
  }

  // ---------------------------------------------------------------------------
  // The confirmation link
  // ---------------------------------------------------------------------------

  /** As written, the confirmation link for a client id with a leading
      whitespace character, such as " client1", leads to an inactive page: the
      link keeps the whitespace, the stored id does not. Tab, LF and CR are
      excluded because a URL parser deletes them from a link. */
  lemma {:induction false} ConfirmationLinkMissesPaddedId(
    s: Slots, qr: string, pad: char, id: string, encodes: bool)
    requires qr != "" && IsTrimmable(pad) && pad != '\t' && pad != '\n' && pad != '\r'
    requires id != "" && HasSolidEnds(id)
    ensures var r := SubmitEffect(s, Text(qr), Text([pad] + id), WriteOutcomes(true, true));
      r.1 == Saved
      && View(ConfirmationLinkId([pad] + id), r.0.clientId, r.0.qrString, encodes) == Inactive(id)
  {
    var client := [pad] + id;
    assert Trim(client) == id by {
      assert [pad] + id + [] == client;
      TrimOfPadded([pad], id, []);
    }
    assert |client| != |id|;
    var r := SubmitEffect(s, Text(qr), Text(client), WriteOutcomes(true, true));
    assert r.0.clientId == Some(id);
  }

  /** The corrected link opens an active page for every saved submission whose
      client id is not whitespace only. */
  lemma {:induction false} CorrectedLinkOpensActivePage(s: Slots, qr: FormField, client: FormField, encodes: bool)
    requires Validate(qr, client).Some?
    requires !AllTrimmable(client.text)
    ensures var r := SubmitEffect(s, qr, client, WriteOutcomes(true, true));
      !View(CorrectedConfirmationLinkId(client.text), r.0.clientId, r.0.qrString, encodes).Inactive?
  {
    TrimEmptyIff(client.text);
  }
}
