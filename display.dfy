/** The value-to-presentation rules of the tables and review cards: the
    Bootstrap colour of an appointment or payment status, the CSS class of
    a KYC status, and how many document thumbnails a review card shows. */
module Display {
  import opened Wrappers
  import opened Text

  /** The Bootstrap contextual colours the maps produce. */
  const Palette: set<string> := {"success", "primary", "info", "danger", "warning", "secondary"}

  /** The colour of each appointment status that has one of its own
      (keys in lower case). */
  const AppointmentColours: map<string, string> := map[
    "completed" := "success", "scheduled" := "primary", "in_progress" := "info",
    "cancelled" := "danger", "pending" := "warning"]

  /** The colour of each payment status that has one of its own
      (keys in lower case). */
  const PaymentColours: map<string, string> := map[
    "completed" := "success", "success" := "success", "pending" := "warning",
    "failed" := "danger", "declined" := "danger", "processing" := "info"]

  /** The appointment statuses with a colour of their own. */
  const AppointmentStatuses: set<string> := AppointmentColours.Keys

  /** The payment statuses with a colour of their own. */
  const PaymentStatuses: set<string> := PaymentColours.Keys

  /** getAppointmentStatusColor: switch on `status?.toLowerCase()`. Total,
      always a palette colour, the colour the table gives a known status,
      and `secondary` exactly for a missing or unrecognised status. */
  function AppointmentStatusColor(status: Option<string>): (colour: string)
    ensures colour in Palette
    ensures colour == "secondary" <==> status.None? || ToLower(status.value) !in AppointmentStatuses
    ensures status.Some? && ToLower(status.value) in AppointmentColours ==> colour == AppointmentColours[ToLower(status.value)]
  {
    if status.None? then "secondary"
    else
      var key := ToLower(status.value);
      if key == "completed" then "success"
      else if key == "scheduled" then "primary"
      else if key == "in_progress" then "info"
      else if key == "cancelled" then "danger"
      else if key == "pending" then "warning"
      else "secondary"
  }

  /** getPaymentStatusColor: switch on `status?.toLowerCase()`. Total,
      always a palette colour, the colour the table gives a known status,
      and `secondary` exactly for a missing or unrecognised status. */
  function PaymentStatusColor(status: Option<string>): (colour: string)
    ensures colour in Palette
    ensures colour == "secondary" <==> status.None? || ToLower(status.value) !in PaymentStatuses
    ensures status.Some? && ToLower(status.value) in PaymentColours ==> colour == PaymentColours[ToLower(status.value)]
  {
    if status.None? then "secondary"
    else
      var key := ToLower(status.value);
      if key == "completed" || key == "success" then "success"
      else if key == "pending" then "warning"
      else if key == "failed" || key == "declined" then "danger"
      else if key == "processing" then "info"
      else "secondary"
  }

  /** The appointment map ignores case: a status and its lower-case form
      get the same colour. */
  lemma AppointmentColorIgnoresCase(s: string)
    ensures AppointmentStatusColor(Some(s)) == AppointmentStatusColor(Some(ToLower(s)))
  {
    ToLowerIdempotent(s);
  }

  /** The payment map ignores case likewise. */
  lemma PaymentColorIgnoresCase(s: string)
    ensures PaymentStatusColor(Some(s)) == PaymentStatusColor(Some(ToLower(s)))
  {
    ToLowerIdempotent(s);
  }

  /** Two statuses that differ only in case get the same colours. */
  lemma SameColorsUpToCase(s: string, t: string)
    requires ToLower(s) == ToLower(t)
    ensures AppointmentStatusColor(Some(s)) == AppointmentStatusColor(Some(t))
    ensures PaymentStatusColor(Some(s)) == PaymentStatusColor(Some(t))
  {
  }

  /** The CSS class of a KYC status on a review card:
      `(status || '').toLowerCase().replace('_', '-')`. The class has the
      length of the status, each character lowered, except that the FIRST
      underscore, and only that one, becomes a hyphen. */
  function StatusClass(status: Option<string>): (cls: string)
    ensures var raw := status.GetOr("");
      && |cls| == |raw|
      && forall i :: 0 <= i < |raw| ==>
           cls[i] == if i == IndexOf(raw, '_') then '-' else LowerChar(raw[i])
  {
    var raw := status.GetOr("");
    var lowered := ToLower(raw);
    assert IndexOf(lowered, '_') == IndexOf(raw, '_') by {
      UnderscoreSurvivesLowering(raw);
    }
    ReplaceFirst(lowered, '_', '-')
  }

  /** Lowering puts an underscore exactly where there was one. */
  lemma {:induction false} UnderscoreSurvivesLowering(s: string)
    ensures IndexOf(ToLower(s), '_') == IndexOf(s, '_')
  {
    if s != [] {
      UnderscoreSurvivesLowering(s[1..]);
      assert ToLower(s)[1..] == ToLower(s[1..]);
      assert ToLower(s)[0] == '_' <==> s[0] == '_';
    }
  }

  /** A status with a second underscore keeps it in its class
      ("AWAITING_ADMIN_REVIEW" gives "awaiting-admin_review"). */
  lemma SecondUnderscoreStays(status: string, j: int)
    requires 0 <= j < |status| && status[j] == '_' && j != IndexOf(status, '_')
    ensures StatusClass(Some(status))[j] == '_'
  {
  }

  /** One thumbnail of the document strip. */
  datatype Thumbnail = Thumbnail(url: string, caption: string)

  /** The document strip of a review card: the thumbnails, and the number
      on the "+N more" badge when there is one. */
  datatype Preview = Preview(thumbnails: seq<Thumbnail>, more: Option<nat>)

  /** `documentUrls.slice(0, 3)` as thumbnails labelled "Document 1", ...,
      and the badge `+(length - 3) more` when there are more than three. */
  function DocumentPreview(urls: seq<string>): (p: Preview)
    ensures |p.thumbnails| == if |urls| < 3 then |urls| else 3
    ensures forall i :: 0 <= i < |p.thumbnails| ==>
      p.thumbnails[i] == Thumbnail(urls[i], "Document " + NatToString(i + 1))
    ensures p.more.Some? <==> |urls| > 3
    ensures p.more.Some? ==> p.more.value == |urls| - 3
  {
    var shown := if |urls| < 3 then urls else urls[..3];
    Preview(seq(|shown|, i requires 0 <= i < |shown| => Thumbnail(shown[i], "Document " + NatToString(i + 1))),
            if |urls| > 3 then Some(|urls| - 3) else None)
  }

  /** Every document is accounted for: shown, or counted on the badge. */
  lemma PreviewAccountsForAll(urls: seq<string>)
    ensures var p := DocumentPreview(urls);
      |p.thumbnails| + p.more.GetOr(0) == |urls| && p.more.GetOr(1) >= 1
  {
  }
}
