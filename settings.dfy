/**
 * The portal configuration page of `src/pages/Settings.tsx`: the form's
 * rules, the row it upserts into `portal_settings`, the admin gate and the
 * submit flow.
 */
module Settings {
  import opened Wrappers
  import opened Types

  const MinSlaHours := 1
  const MaxSlaHours := 72

  /** The single row of `portal_settings` every save overwrites. */
  const SettingsRowId := 1

  /**
   * The values the form delivers. The `PortalSettings` interface declares
   * arrays and a number, but nothing converts the fields: the two textareas
   * deliver their text, the number input its text (empty when left blank),
   * and only the two checkboxes deliver booleans.
   */
  datatype SettingsForm = SettingsForm(
    portalName: string, companyLogo: string, primaryColor: string, enableNotifications: bool,
    ticketCategories: string, assetTypes: string, autoAssignment: bool, slaHours: string)

  /** The upserted row: the id, the form's values as delivered, who saved it and when. */
  datatype SettingsRow = SettingsRow(
    id: int,
    portalName: string, companyLogo: string, primaryColor: string, enableNotifications: bool,
    ticketCategories: string, assetTypes: string, autoAssignment: bool, slaHours: string,
    updatedBy: Option<string>, updatedAt: string)

  predicate IsDigit(c: char) {
    '0' <= c <= '9'
  }

  predicate AllDigits(s: string) {
    forall i :: 0 <= i < |s| ==> IsDigit(s[i])
  }

  function DigitValue(c: char): nat
    requires IsDigit(c)
  {
    c as int - '0' as int
  }

  function Digit(d: nat): (c: char)
    requires d < 10
    ensures IsDigit(c) && DigitValue(c) == d
  {
    ('0' as int + d) as char
  }

  /**
   * The number a non-empty run of decimal digits denotes, as the `min` and
   * `max` rules read the field; None for any other text.
   */
  function DecimalValue(s: string): (r: Option<nat>)
    ensures r.Some? <==> s != "" && AllDigits(s)
    decreases |s|
  {
    if s == "" || !IsDigit(s[|s| - 1]) then None
    else if |s| == 1 then Some(DigitValue(s[0]))
    else
      var init := s[..|s| - 1];
      assert forall i :: 0 <= i < |init| ==> init[i] == s[i];
      match DecimalValue(init)
      case None => None
      case Some(v) => Some(10 * v + DigitValue(s[|s| - 1]))
  }

  /** The decimal numeral of `n`, with no leading zero. */
  function DecimalText(n: nat): (s: string)
    ensures s != "" && AllDigits(s)
    decreases n
  {
    if n < 10 then [Digit(n)] else DecimalText(n / 10) + [Digit(n % 10)]
  }

  /** Reading the numeral of `n` gives `n` back. */
  lemma {:induction false} DecimalRoundTrip(n: nat)
    ensures DecimalValue(DecimalText(n)) == Some(n)
  {
    if n >= 10 {
      DecimalRoundTrip(n / 10);
      var s := DecimalText(n);
      assert s[..|s| - 1] == DecimalText(n / 10);
      assert s[|s| - 1] == Digit(n % 10);
    }
  }

  /** `portal_name` is required; `sla_hours` is required, and its number lies in 1..72. */
  function FormAccepted(f: SettingsForm): (ok: bool)
    ensures ok <==> f.portalName != "" && DecimalValue(f.slaHours).Some?
                    && MinSlaHours <= DecimalValue(f.slaHours).value <= MaxSlaHours
    ensures ok ==> f.slaHours != ""
  {
    f.portalName != "" && f.slaHours != ""
    && match DecimalValue(f.slaHours)
       case None => false
       case Some(hours) => hours >= MinSlaHours && hours <= MaxSlaHours
  }

  /** With a portal name, typing the numeral of `n` is accepted exactly when 1 <= n <= 72. */
  lemma SlaBoundsAreInclusive(f: SettingsForm, n: nat)
    requires f.portalName != "" && f.slaHours == DecimalText(n)
    ensures FormAccepted(f) <==> MinSlaHours <= n <= MaxSlaHours
  {
    DecimalRoundTrip(n);
  }

  /** A blank SLA field is refused whatever the rest of the form holds. */
  lemma BlankSlaRefused(f: SettingsForm)
    requires f.slaHours == ""
    ensures !FormAccepted(f)
  {
  }

  /** `{ id: 1, ...data, updated_by: user?.id, updated_at }`, the clock reading passed as `now`. */
  function UpsertRow(f: SettingsForm, updatedBy: Option<string>, now: string): (row: SettingsRow)
    ensures row.id == SettingsRowId
    ensures FormOf(row) == f
    ensures row.updatedBy == updatedBy && row.updatedAt == now
  {
    SettingsRow(SettingsRowId, f.portalName, f.companyLogo, f.primaryColor, f.enableNotifications,
                f.ticketCategories, f.assetTypes, f.autoAssignment, f.slaHours, updatedBy, now)
  }

  /** The form values the row carries. */
  function FormOf(row: SettingsRow): SettingsForm {
    SettingsForm(row.portalName, row.companyLogo, row.primaryColor, row.enableNotifications,
                 row.ticketCategories, row.assetTypes, row.autoAssignment, row.slaHours)
  }

  /** Two saves of different forms write different rows, and every save targets the one row 1. */
  lemma UpsertRowKeepsForm(f: SettingsForm, g: SettingsForm, a: Option<string>, b: Option<string>, t: string, u: string)
    ensures UpsertRow(f, a, t).id == UpsertRow(g, b, u).id
    ensures UpsertRow(f, a, t) == UpsertRow(g, b, u) <==> f == g && a == b && t == u
  {
    if UpsertRow(f, a, t) == UpsertRow(g, b, u) {
      assert FormOf(UpsertRow(f, a, t)) == FormOf(UpsertRow(g, b, u));
    }
  }

  /** An accepted form's row carries an SLA text whose number lies within the bounds. */
  lemma AcceptedRowHasBoundedSla(f: SettingsForm, updatedBy: Option<string>, now: string)
    requires FormAccepted(f)
    ensures var row := UpsertRow(f, updatedBy, now);
      DecimalValue(row.slaHours).Some? && MinSlaHours <= DecimalValue(row.slaHours).value <= MaxSlaHours
  {
    assert UpsertRow(f, updatedBy, now).slaHours == f.slaHours;
  }

  class Page {
    var loading: bool
    var reloaded: bool

    constructor ()
      ensures !loading && !reloaded
    {
      loading, reloaded := false, false;
    }

    /**
     * `onSubmit`, reachable only from the form an admin sees: an accepted
     * form's row is upserted (`sent`), the page reloads only when the upsert
     * reports no error, and loading ends either way.
     */
    method Submit(current: Option<User>, form: SettingsForm, now: string, upsertOk: bool)
      returns (sent: Option<SettingsRow>)
      modifies this
      ensures sent == if !Restricted(current) && FormAccepted(form) then Some(UpsertRow(form, IdOf(current), now)) else None
      ensures reloaded == (old(reloaded) || (sent.Some? && upsertOk))
      ensures loading == if sent.Some? then false else old(loading)
    {
      if Restricted(current) || !FormAccepted(form) {
        return None;
      }
      loading := true;
      sent := Some(UpsertRow(form, IdOf(current), now));
      if upsertOk {
        reloaded := true;
      }
      loading := false;
    }
  }
}
