/**
 * The ticket collaboration view of `src/pages/TicketDetails.tsx`.
 *
 * Every change the page makes is a field-scoped update of the ticket row
 * (its status or its assignee) or a comment insert, followed, only when that
 * write reported no error, by one insert into the ticket's history. The
 * history insert's own error is never looked at. The page's local copies of
 * the ticket and its comments change only through the realtime handlers; its
 * local history list changes only through the initial load.
 *
 * The hosted tables are the `Backend` object; every answer the store gives
 * (an error or none) is a parameter. `Step` and `Replay` state, as functions
 * on the tables' contents, what one action and a run of actions do to them;
 * the page's methods are proved to perform `Step`, and the lemmas at the end
 * state the audit trail's guarantees over any run.
 */
module TicketDetails {
  import opened Wrappers
  import opened Types
  import Seqs

  /** A row of `ticket_comments` as the initial load and the realtime feed deliver it. */
  datatype Comment = Comment(id: string, ticketId: string, userId: string, content: string, createdAt: string)

  /** A row of `ticket_history` as the initial load delivers it. */
  datatype HistoryEvent = HistoryEvent(
    id: string, ticketId: string, userId: string, action: string, details: string, createdAt: string)

  /** The row the page sends to `ticket_comments`; the store adds id and creation time. */
  datatype CommentInsert = CommentInsert(ticketId: string, userId: Option<string>, content: string)

  /** The row the page sends to `ticket_history`. */
  datatype HistoryInsert = HistoryInsert(ticketId: string, userId: Option<string>, action: string, details: string)

  /** The two partial updates the page issues: `{ status }` and `{ assigned_to }`. */
  datatype TicketPatch = SetStatus(status: TicketStatus) | SetAssignee(userId: string)

  function ApplyPatch(t: Ticket, p: TicketPatch): Ticket {
    match p
    case SetStatus(s) => t.(status := s)
    case SetAssignee(u) => t.(assignedTo := Some(u))
  }

  /** A status patch writes the status and nothing else. */
  lemma StatusPatchIsFieldScoped(t: Ticket, s: TicketStatus)
    ensures ApplyPatch(t, SetStatus(s)).status == s
    ensures ApplyPatch(t, SetStatus(s)).(status := t.status) == t
  {
  }

  /** An assignment patch writes `assigned_to` and nothing else. */
  lemma AssignPatchIsFieldScoped(t: Ticket, u: string)
    ensures ApplyPatch(t, SetAssignee(u)).assignedTo == Some(u)
    ensures ApplyPatch(t, SetAssignee(u)).(assignedTo := t.assignedTo) == t
  {
  }

  /**
   * Because each patch touches its own field, a status change and an
   * assignment by two viewers give the same row in either order.
   */
  lemma PatchesCommute(t: Ticket, s: TicketStatus, u: string)
    ensures ApplyPatch(ApplyPatch(t, SetStatus(s)), SetAssignee(u))
         == ApplyPatch(ApplyPatch(t, SetAssignee(u)), SetStatus(s))
  {
  }

  /** `.update(patch).eq('id', id)`: the row with that id, if there is one, is patched. */
  function UpdateWhereId(tickets: map<string, Ticket>, id: string, p: TicketPatch): (r: map<string, Ticket>)
    ensures r.Keys == tickets.Keys
    ensures forall k :: k in tickets && k != id ==> r[k] == tickets[k]
  {
    if id in tickets then tickets[id := ApplyPatch(tickets[id], p)] else tickets
  }

  const StatusAction := "status"
  const AssignAction := "assign"
  const CommentAction := "comment"
  const CommentDetails := "Añadió un comentario"

  function StatusDetails(s: TicketStatus): string {
    "Cambió el estado a " + StatusName(s)
  }

  /**
   * `${assignedUser?.full_name}`: the assignee's name, "null" for a row whose
   * name is null, and "undefined" when no support user has the id.
   */
  function AssigneeLabel(assignee: Option<User>): string {
    match assignee
    case None => "undefined"
    case Some(u) =>
      match u.fullName
      case None => "null"
      case Some(n) => n
  }

  function AssignDetails(assignee: Option<User>): string {
    "Asignó el ticket a " + AssigneeLabel(assignee)
  }

  /** The status history row names the status it set, so different statuses give different rows. */
  lemma {:induction false} StatusDetailsNameTheStatus(a: TicketStatus, b: TicketStatus)
    ensures StatusDetails(a) == StatusDetails(b) ==> a == b
  {
    var prefix := "Cambió el estado a ";
    if StatusDetails(a) == StatusDetails(b) {
      assert StatusDetails(a)[|prefix|..] == StatusName(a);
      assert StatusDetails(b)[|prefix|..] == StatusName(b);
    }
  }

  /** `supportUsers.find(u => u.id === userId)`. */
  function FindStaff(staff: seq<User>, userId: string): (r: Option<User>)
    ensures r.Some? ==> r.value in staff && r.value.id == userId
    ensures r.None? ==> forall u :: u in staff ==> u.id != userId
  {
    Seqs.Find(staff, (u: User) => u.id == userId)
  }

  /**
   * The assignment's history row names the first support user carrying the
   * chosen id by that user's full name.
   */
  lemma {:induction false} AssignRowNamesAssignee(staff: seq<User>, userId: string, i: nat, name: string)
    requires i < |staff| && staff[i].id == userId && staff[i].fullName == Some(name)
    requires forall j :: 0 <= j < i ==> staff[j].id != userId
    ensures Details(staff, Assign(userId)) == "Asignó el ticket a " + name
  {
    var p := (u: User) => u.id == userId;
    assert Seqs.FirstIndex(staff, p) == Some(i);
  }

  /** The contents of the hosted tables as far as this ticket page touches them. */
  datatype Db = Db(tickets: map<string, Ticket>, comments: seq<CommentInsert>, history: seq<HistoryInsert>)

  /** What the user asks the page to do. */
  datatype Action =
    | ChangeStatus(status: TicketStatus)
    | Assign(userId: string)
    | AddComment(content: string)

  /**
   * One action by the signed-in user (`actor` is `user?.id`) together with the
   * store's answers: whether the primary write and the history insert
   * reported no error.
   */
  datatype Attempt = Attempt(actor: Option<string>, action: Action, primaryOk: bool, historyOk: bool)

  /** The comment form's `required` rule: an empty comment is never submitted. */
  predicate Submitted(a: Attempt) {
    !(a.action.AddComment? && a.action.content == "")
  }

  /** The primary write was issued and reported no error. */
  predicate Succeeded(a: Attempt) {
    Submitted(a) && a.primaryOk
  }

  /** The attempt left a row in the history table. */
  predicate Audited(a: Attempt) {
    Succeeded(a) && a.historyOk
  }

  function ActionTag(action: Action): string {
    match action
    case ChangeStatus(_) => StatusAction
    case Assign(_) => AssignAction
    case AddComment(_) => CommentAction
  }

  function Details(staff: seq<User>, action: Action): string {
    match action
    case ChangeStatus(s) => StatusDetails(s)
    case Assign(u) => AssignDetails(FindStaff(staff, u))
    case AddComment(_) => CommentDetails
  }

  /** The history row an attempt writes on ticket `id`, given the page's support users. */
  function HistoryRow(id: string, staff: seq<User>, a: Attempt): HistoryInsert {
    HistoryInsert(id, a.actor, ActionTag(a.action), Details(staff, a.action))
  }

  /** The primary write of an action on ticket `id`. */
  function PrimaryWrite(db: Db, id: string, a: Attempt): Db {
    match a.action
    case ChangeStatus(s) => db.(tickets := UpdateWhereId(db.tickets, id, SetStatus(s)))
    case Assign(u) => db.(tickets := UpdateWhereId(db.tickets, id, SetAssignee(u)))
    case AddComment(c) => db.(comments := db.comments + [CommentInsert(id, a.actor, c)])
  }

  /**
   * What one attempt does to the tables: nothing unless its primary write
   * succeeded; then that write, and then its history row if that insert
   * succeeded.
   */
  function Step(db: Db, id: string, staff: seq<User>, a: Attempt): (r: Db)
    ensures !Succeeded(a) ==> r == db
    ensures r.history == db.history + (if Audited(a) then [HistoryRow(id, staff, a)] else [])
    ensures r.tickets.Keys == db.tickets.Keys
  {
    if !Succeeded(a) then db
    else
      var written := PrimaryWrite(db, id, a);
      if a.historyOk then written.(history := written.history + [HistoryRow(id, staff, a)])
      else written
  }

  /** A run of attempts, in call order. */
  function Replay(db: Db, id: string, staff: seq<User>, run: seq<Attempt>): Db
    decreases |run|
  {
    if run == [] then db else Replay(Step(db, id, staff, run[0]), id, staff, run[1..])
  }

  /** The history rows of the given attempts, in order. */
  function HistoryRows(id: string, staff: seq<User>, run: seq<Attempt>): seq<HistoryInsert>
    decreases |run|
  {
    if run == [] then [] else [HistoryRow(id, staff, run[0])] + HistoryRows(id, staff, run[1..])
  }

  /** The comment row an attempt carries: one if it adds a comment, none otherwise. */
  function CommentOf(id: string, a: Attempt): seq<CommentInsert> {
    if a.action.AddComment? then [CommentInsert(id, a.actor, a.action.content)] else []
  }

  /** The comment rows of the given attempts that add comments, in order. */
  function CommentRows(id: string, run: seq<Attempt>): seq<CommentInsert>
    decreases |run|
  {
    if run == [] then [] else CommentOf(id, run[0]) + CommentRows(id, run[1..])
  }

  /** The status after a run: the last successful status change's, or `current` if there was none. */
  function LastStatus(run: seq<Attempt>, current: TicketStatus): TicketStatus
    decreases |run|
  {
    if run == [] then current
    else
      var next := if Succeeded(run[0]) && run[0].action.ChangeStatus? then run[0].action.status else current;
      LastStatus(run[1..], next)
  }

  /** The assignee after a run: the last successful assignment's, or `current` if there was none. */
  function LastAssignee(run: seq<Attempt>, current: Option<string>): Option<string>
    decreases |run|
  {
    if run == [] then current
    else
      var next := if Succeeded(run[0]) && run[0].action.Assign? then Some(run[0].action.userId) else current;
      LastAssignee(run[1..], next)
  }

  predicate IsAudited(a: Attempt) { Audited(a) }
  predicate IsSucceeded(a: Attempt) { Succeeded(a) }
  predicate IsStoredComment(a: Attempt) { Succeeded(a) && a.action.AddComment? }

  lemma {:induction false} HistoryRowsAppend(id: string, staff: seq<User>, r: seq<Attempt>, s: seq<Attempt>)
    ensures HistoryRows(id, staff, r + s) == HistoryRows(id, staff, r) + HistoryRows(id, staff, s)
  {
    if r == [] {
      assert r + s == s;
    } else {
      assert (r + s)[1..] == r[1..] + s;
      HistoryRowsAppend(id, staff, r[1..], s);
    }
  }

  lemma {:induction false} CommentRowsAppend(id: string, r: seq<Attempt>, s: seq<Attempt>)
    ensures CommentRows(id, r + s) == CommentRows(id, r) + CommentRows(id, s)
    decreases |r|
  {
    if r == [] {
      assert r + s == s;
    } else {
      calc {
        CommentRows(id, r + s);
        { assert (r + s)[0] == r[0] && (r + s)[1..] == r[1..] + s; }
        CommentOf(id, r[0]) + CommentRows(id, r[1..] + s);
        { CommentRowsAppend(id, r[1..], s); }
        CommentOf(id, r[0]) + (CommentRows(id, r[1..]) + CommentRows(id, s));
        (CommentOf(id, r[0]) + CommentRows(id, r[1..])) + CommentRows(id, s);
      }
    }
  }

  /**
   * The audit trail never diverges from the writes it records: over any run,
   * the history table gains exactly the rows of the attempts whose primary
   * write and history insert both succeeded, one each, in call order, and
   * the earlier rows stay as they were.
   */
  lemma {:induction false} HistoryRecordsAuditedAttempts(db: Db, id: string, staff: seq<User>, run: seq<Attempt>)
    ensures Replay(db, id, staff, run).history
         == db.history + HistoryRows(id, staff, Seqs.Filter(run, IsAudited))
    decreases |run|
  {
    if run != [] {
      var db' := Step(db, id, staff, run[0]);
      HistoryRecordsAuditedAttempts(db', id, staff, run[1..]);
      assert run == [run[0]] + run[1..];
      Seqs.FilterAppend([run[0]], run[1..], IsAudited);
      HistoryRowsAppend(id, staff, Seqs.Filter([run[0]], IsAudited), Seqs.Filter(run[1..], IsAudited));
    }
  }

  /**
   * When no history insert fails, every successful change leaves exactly one
   * history row, in call order.
   */
  lemma {:induction false} EverySuccessIsAudited(db: Db, id: string, staff: seq<User>, run: seq<Attempt>)
    requires forall i :: 0 <= i < |run| ==> run[i].historyOk
    ensures Replay(db, id, staff, run).history
         == db.history + HistoryRows(id, staff, Seqs.Filter(run, IsSucceeded))
    ensures |Replay(db, id, staff, run).history| == |db.history| + |Seqs.Filter(run, IsSucceeded)|
  {
    HistoryRecordsAuditedAttempts(db, id, staff, run);
    SameFilterWhenHistoryOk(run);
    HistoryRowsLength(id, staff, Seqs.Filter(run, IsSucceeded));
  }

  lemma {:induction false} SameFilterWhenHistoryOk(run: seq<Attempt>)
    requires forall i :: 0 <= i < |run| ==> run[i].historyOk
    ensures Seqs.Filter(run, IsAudited) == Seqs.Filter(run, IsSucceeded)
  {
    if run != [] {
      SameFilterWhenHistoryOk(run[1..]);
    }
  }

  lemma {:induction false} HistoryRowsLength(id: string, staff: seq<User>, run: seq<Attempt>)
    ensures |HistoryRows(id, staff, run)| == |run|
  {
    if run != [] {
      HistoryRowsLength(id, staff, run[1..]);
    }
  }

  /**
   * Comments are append-only: over any run, the comment table gains exactly
   * the comments whose insert succeeded, in call order.
   */
  lemma {:induction false} CommentsRecordStoredComments(db: Db, id: string, staff: seq<User>, run: seq<Attempt>)
    ensures Replay(db, id, staff, run).comments
         == db.comments + CommentRows(id, Seqs.Filter(run, IsStoredComment))
    decreases |run|
  {
    if run != [] {
      var a := run[0];
      var db' := Step(db, id, staff, a);
      assert Replay(db, id, staff, run) == Replay(db', id, staff, run[1..]);
      CommentsRecordStoredComments(db', id, staff, run[1..]);
      StepComments(db, id, staff, a);
      StoredCommentRows(id, a);
      StoredCommentsSplit(id, run);
    }
  }

  /** The stored comments of a run are those of its first attempt followed by those of the rest. */
  lemma StoredCommentsSplit(id: string, run: seq<Attempt>)
    requires run != []
    ensures CommentRows(id, Seqs.Filter(run, IsStoredComment))
         == CommentRows(id, Seqs.Filter([run[0]], IsStoredComment)) + CommentRows(id, Seqs.Filter(run[1..], IsStoredComment))
  {
    assert run == [run[0]] + run[1..];
    Seqs.FilterAppend([run[0]], run[1..], IsStoredComment);
    CommentRowsAppend(id, Seqs.Filter([run[0]], IsStoredComment), Seqs.Filter(run[1..], IsStoredComment));
  }

  /** The comment rows of a one-attempt run: its comment if it is a stored comment. */
  lemma StoredCommentRows(id: string, a: Attempt)
    ensures CommentRows(id, Seqs.Filter([a], IsStoredComment))
         == if IsStoredComment(a) then [CommentInsert(id, a.actor, a.action.content)] else []
  {
    assert [a][1..] == [];
  }

  /** One attempt adds its comment row exactly when it is a successful comment insert. */
  lemma StepComments(db: Db, id: string, staff: seq<User>, a: Attempt)
    ensures Step(db, id, staff, a).comments
         == db.comments + (if IsStoredComment(a) then [CommentInsert(id, a.actor, a.action.content)] else [])
  {
  }

  /**
   * After any run the ticket's status and assignee are those of the last
   * successful change of each kind, every other field of the ticket is as it
   * was (its creator in particular), and no other ticket changes.
   */
  lemma {:induction false} LastChangeWins(db: Db, id: string, staff: seq<User>, run: seq<Attempt>)
    requires id in db.tickets
    ensures id in Replay(db, id, staff, run).tickets
    ensures Replay(db, id, staff, run).tickets[id]
         == db.tickets[id].(status := LastStatus(run, db.tickets[id].status),
                            assignedTo := LastAssignee(run, db.tickets[id].assignedTo))
    ensures Replay(db, id, staff, run).tickets.Keys == db.tickets.Keys
    ensures forall k :: k in db.tickets && k != id ==> Replay(db, id, staff, run).tickets[k] == db.tickets[k]
    decreases |run|
  {
    if run != [] {
      var db' := Step(db, id, staff, run[0]);
      LastChangeWins(db', id, staff, run[1..]);
    }
  }

  /** The hosted tables. Each write takes the store's answer as `ok`. */
  class Backend {
    var tickets: map<string, Ticket>
    var comments: seq<CommentInsert>
    var history: seq<HistoryInsert>

    function Snapshot(): Db
      reads this
    {
      Db(tickets, comments, history)
    }

    constructor (db: Db)
      ensures Snapshot() == db
    {
      tickets, comments, history := db.tickets, db.comments, db.history;
    }

    /** `.from('tickets').update(patch).eq('id', id)`; an error leaves the row alone. */
    method UpdateTicket(id: string, p: TicketPatch, ok: bool)
      modifies this
      ensures tickets == if ok then UpdateWhereId(old(tickets), id, p) else old(tickets)
      ensures comments == old(comments) && history == old(history)
    {
      if ok {
        tickets := UpdateWhereId(tickets, id, p);
      }
    }

    /** `.from('ticket_comments').insert([row])`. */
    method InsertComment(row: CommentInsert, ok: bool)
      modifies this
      ensures comments == if ok then old(comments) + [row] else old(comments)
      ensures tickets == old(tickets) && history == old(history)
    {
      if ok {
        comments := comments + [row];
      }
    }

    /** `.from('ticket_history').insert([row])`. */
    method InsertHistory(row: HistoryInsert, ok: bool)
      modifies this
      ensures history == if ok then old(history) + [row] else old(history)
      ensures tickets == old(tickets) && comments == old(comments)
    {
      if ok {
        history := history + [row];
      }
    }
  }

  /** The page's state for the ticket with id `id`. */
  class Page {
    const id: string
    const store: Backend
    var ticket: Option<Ticket>
    var comments: seq<Comment>
    var history: seq<HistoryEvent>
    var supportUsers: seq<User>
    var loading: bool
    /** The comment form's text field. */
    var draft: string

    constructor (id: string, store: Backend)
      ensures this.id == id && this.store == store
      ensures ticket == None && comments == [] && history == [] && supportUsers == []
      ensures loading && draft == ""
    {
      this.id, this.store := id, store;
      ticket, comments, history, supportUsers := None, [], [], [];
      loading, draft := true, "";
    }

    /**
     * `fetchTicketData` after its three queries answered: the ticket row (or
     * null), the comments and the history (an error gives an empty list).
     */
    method Load(ticketRow: Option<Ticket>, commentRows: Option<seq<Comment>>, historyRows: Option<seq<HistoryEvent>>)
      modifies this
      ensures ticket == ticketRow
      ensures comments == (if commentRows.Some? then commentRows.value else [])
      ensures history == (if historyRows.Some? then historyRows.value else [])
      ensures !loading
      ensures supportUsers == old(supportUsers) && draft == old(draft)
    {
      ticket := ticketRow;
      comments := if commentRows.Some? then commentRows.value else [];
      history := if historyRows.Some? then historyRows.value else [];
      loading := false;
    }

    /**
     * `fetchSupportUsers`: the `users` rows whose role is admin or support, in
     * table order; an error gives an empty list.
     */
    method LoadSupportUsers(users: seq<User>, ok: bool)
      modifies this
      ensures forall u :: u in supportUsers <==> ok && u in users && IsStaff(u)
      ensures ok ==> Seqs.IsSubsequence(supportUsers, users)
      ensures ticket == old(ticket) && comments == old(comments) && history == old(history)
      ensures loading == old(loading) && draft == old(draft)
    {
      supportUsers := if ok then Seqs.Filter(users, IsStaff) else [];
    }

    /** `updateTicketStatus`: the status update, then its history row if the update succeeded. */
    method UpdateTicketStatus(current: Option<User>, status: TicketStatus, updateOk: bool, historyOk: bool)
      modifies store
      ensures store.Snapshot()
           == Step(old(store.Snapshot()), id, supportUsers, Attempt(IdOf(current), ChangeStatus(status), updateOk, historyOk))
    {
      store.UpdateTicket(id, SetStatus(status), updateOk);
      if !updateOk {
        return;
      }
      store.InsertHistory(HistoryInsert(id, IdOf(current), StatusAction, StatusDetails(status)), historyOk);
    }

    /** `assignTicket`: the assignment, then its history row naming the support user with that id. */
    method AssignTicket(current: Option<User>, userId: string, updateOk: bool, historyOk: bool)
      modifies store
      ensures store.Snapshot()
           == Step(old(store.Snapshot()), id, supportUsers, Attempt(IdOf(current), Assign(userId), updateOk, historyOk))
    {
      store.UpdateTicket(id, SetAssignee(userId), updateOk);
      if !updateOk {
        return;
      }
      var assignedUser := FindStaff(supportUsers, userId);
      store.InsertHistory(HistoryInsert(id, IdOf(current), AssignAction, AssignDetails(assignedUser)), historyOk);
    }

    /**
     * `onSubmitComment` for the text in the comment field: the comment
     * insert, then, only if it succeeded, the history row (whose error is not
     * checked) and the form reset.
     */
    method SubmitComment(current: Option<User>, insertOk: bool, historyOk: bool)
      modifies this, store
      ensures store.Snapshot()
           == Step(old(store.Snapshot()), id, old(supportUsers), Attempt(IdOf(current), AddComment(old(draft)), insertOk, historyOk))
      ensures draft == if old(draft) != "" && insertOk then "" else old(draft)
      ensures ticket == old(ticket) && comments == old(comments) && history == old(history)
      ensures supportUsers == old(supportUsers) && loading == old(loading)
    {
      if draft == "" {
        return;
      }
      store.InsertComment(CommentInsert(id, IdOf(current), draft), insertOk);
      if !insertOk {
        return;
      }
      store.InsertHistory(HistoryInsert(id, IdOf(current), CommentAction, CommentDetails), historyOk);
      draft := "";
    }

    /** The realtime handler for the ticket row: replace the whole ticket when the event carries a new row. */
    method OnTicketChange(payloadNew: Option<Ticket>)
      modifies this
      ensures ticket == if payloadNew.Some? then payloadNew else old(ticket)
      ensures comments == old(comments) && history == old(history)
      ensures supportUsers == old(supportUsers) && loading == old(loading) && draft == old(draft)
    {
      if payloadNew.Some? {
        ticket := payloadNew;
      }
    }

    /** The realtime handler for comment inserts: append the new comment after the others. */
    method OnCommentInsert(comment: Comment)
      modifies this
      ensures comments == old(comments) + [comment]
      ensures ticket == old(ticket) && history == old(history)
      ensures supportUsers == old(supportUsers) && loading == old(loading) && draft == old(draft)
    {
      comments := comments + [comment];
    }
  }
}
