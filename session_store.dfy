/**
 * The session store of the QR manager server: the current client id and the
 * current QR string, each held in a file of its own, and the admin submission
 * that rewrites them one after the other.
 */
module SessionStore {
  import opened JsText
  import opened HandOff

  class Store {
    /** The client-id file's content; None while the file does not exist. */
    var clientId: Option<string>
    /** The QR-string file's content; None while the file does not exist. */
    var qrString: Option<string>

    function Contents(): Slots
      reads this
    {
      Slots(clientId, qrString)
    }

    /** The store over whatever the data directory holds when the server
        starts: Slots(None, None) on first boot. */
    constructor (persisted: Slots)
      ensures Contents() == persisted
    {
      clientId := persisted.clientId;
      qrString := persisted.qrString;
    }

    /** POST /set-qr: validate, then write the trimmed QR string, then the
        trimmed client id; each write lands or fails as w says, and any failure
        lowers the success flag without undoing the other write. */
    method Submit(qr: FormField, client: FormField, w: WriteOutcomes) returns (status: Status)
      modifies this
      ensures (Contents(), status) == SubmitEffect(old(Contents()), qr, client, w)
    {
      if qr.Text? && qr.text != "" && client.Text? && client.text != "" {
        var success := true;
        if w.qrWritten {
          qrString := Some(Trim(qr.text));
        } else {
          success := false;
        }
        if w.clientWritten {
          clientId := Some(Trim(client.text));
        } else {
          success := false;
        }
        status := if success then Saved else StorageFailure;
      } else {
        status := InvalidRequest;
      }
    }

    /** GET /scan/:clientId against the current slots: only the stored,
        non-empty client id is served, and only the stored QR string is shown. */
    function Scan(requested: string, encodes: bool): (v: ScanView)
      reads this
      ensures v.Inactive? <==> requested == "" || clientId != Some(requested)
      ensures v.Inactive? ==> v.activeClient == AdminStatus(clientId)
      ensures v.Rendered? ==> qrString == Some(v.image.payload) && v.image.payload != "" && encodes
      ensures v.RenderError? <==> !v.Inactive? && qrString.Some? && qrString.value != "" && !encodes
      ensures v.Pending? <==> !v.Inactive? && qrString == Some("")
      ensures v.ReadFault? <==> !v.Inactive? && qrString.None?
    {
      View(requested, clientId, qrString, encodes)
    }
  }

  /** Four scenarios from first boot, verified for any two distinct non-empty
      client ids and any non-empty codes, none with surrounding whitespace:
      nobody is active;
      client c1 is handed code q1; client c2 replaces c1 with q2; an empty QR
      field is refused and changes nothing. Submit is used through its
      contract alone; Scan and View are unfolded. */
  method HandOffScenarios(c1: string, q1: string, c2: string, q2: string, anyone: string)
    requires c1 != "" && q1 != "" && c2 != "" && q2 != "" && c1 != c2
    requires HasSolidEnds(c1) && HasSolidEnds(q1) && HasSolidEnds(c2) && HasSolidEnds(q2)
  {
    var store := new Store(Slots(None, None));
    assert store.Scan(anyone, true) == Inactive("None");

    TrimKeepsSolid(c1);
    TrimKeepsSolid(q1);
    var st := store.Submit(Text(q1), Text(c1), WriteOutcomes(true, true));
    assert st == Saved;
    assert store.Scan(c1, true) == Rendered(QrImage(q1));

    TrimKeepsSolid(c2);
    TrimKeepsSolid(q2);
    st := store.Submit(Text(q2), Text(c2), WriteOutcomes(true, true));
    assert store.Scan(c1, true) == Inactive(c2);
    assert store.Scan(c2, true) == Rendered(QrImage(q2));

    st := store.Submit(Text(""), Text(c1), WriteOutcomes(true, true));
    assert StatusCode(st) == 400;
    assert store.Contents() == Slots(Some(c2), Some(q2));
  }
}
