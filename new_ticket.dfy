/**
 * The ticket form of `src/pages/NewTicket.tsx`: the row it inserts into
 * `tickets` and the submit flow.
 */
module NewTicket {
  import opened Wrappers
  import opened Types

  /** The category options of the select, which has no empty option. */
  const Categories: seq<string> := ["hardware", "software", "network", "access", "other"]

  /**
   * The form values. No input registers `asset_id`, so the page always
   * delivers None there; the type keeps the interface's optional field.
   */
  datatype TicketForm = TicketForm(
    title: string, description: string, priority: Priority, category: string, assetId: Option<string>)

  /** The row sent to `tickets`: the form's fields, then `status` and `created_by`. */
  datatype TicketInsert = TicketInsert(
    title: string, description: string, priority: Priority, category: string, assetId: Option<string>,
    status: TicketStatus, createdBy: Option<string>)

  /**
   * `title`, `description`, `priority` and `category` are required. The two
   * selects always hold one of their options, so only the two text fields can
   * refuse a form the page builds.
   */
  function FormAccepted(f: TicketForm): (ok: bool)
    ensures ok ==> f.title != "" && f.description != "" && f.category != ""
    ensures f.title != "" && f.description != "" && f.category in Categories ==> ok
  {
    f.title != "" && f.description != "" && f.category != ""
  }

  /** Every category option, with a title and a description, gives an accepted form. */
  lemma EveryCategoryOptionAccepted(title: string, description: string, priority: Priority)
    requires title != "" && description != ""
    ensures forall i :: 0 <= i < |Categories| ==> FormAccepted(TicketForm(title, description, priority, Categories[i], None))
  {
  }

  /**
   * `{ ...data, status: 'open', created_by: user?.id }`: the `status` key
   * comes after the spread, so the row is always open, and it is created by
   * the signed-in user.
   */
  function InsertRow(f: TicketForm, createdBy: Option<string>): (row: TicketInsert)
    ensures FormOf(row) == f
    ensures row.status == Open && row.createdBy == createdBy
  {
    TicketInsert(f.title, f.description, f.priority, f.category, f.assetId, Open, createdBy)
  }

  /** The form fields the row carries. */
  function FormOf(row: TicketInsert): TicketForm {
    TicketForm(row.title, row.description, row.priority, row.category, row.assetId)
  }

  /**
   * The row carries the form back unchanged, is open, and names the creator;
   * two forms give the same row only if they are the same form.
   */
  lemma InsertRowKeepsForm(f: TicketForm, g: TicketForm, createdBy: Option<string>)
    ensures FormOf(InsertRow(f, createdBy)) == f
    ensures InsertRow(f, createdBy).status == Open
    ensures InsertRow(f, createdBy).createdBy == createdBy
    ensures InsertRow(f, createdBy) == InsertRow(g, createdBy) ==> f == g
  {
  }

  class Page {
    var loading: bool
    var navigatedTo: Option<string>

    constructor ()
      ensures !loading && navigatedTo == None
    {
      loading, navigatedTo := false, None;
    }

    /**
     * `onSubmit`: for an accepted form the row is sent (`sent`); navigation to
     * the ticket list follows only a successful insert, and loading is false
     * afterwards on both paths. A refused form sends nothing.
     */
    method Submit(current: Option<User>, form: TicketForm, insertOk: bool) returns (sent: Option<TicketInsert>)
      modifies this
      ensures sent == if FormAccepted(form) then Some(InsertRow(form, IdOf(current))) else None
      ensures navigatedTo == if sent.Some? && insertOk then Some("/tickets") else old(navigatedTo)
      ensures loading == if sent.Some? then false else old(loading)
    {
      if !FormAccepted(form) {
        return None;
      }
      loading := true;
      sent := Some(InsertRow(form, IdOf(current)));
      if insertOk {
        navigatedTo := Some("/tickets");
      }
      loading := false;
    }
  }
}
