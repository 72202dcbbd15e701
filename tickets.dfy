/** The ticket list page: the search-and-status filter over the ticket list,
    the per-ticket action buttons a viewer is offered, the admin-only
    "New Ticket" dialog and the empty-state message. */
module Tickets {

  import opened Wrappers
  import opened Text
  import opened Seqs

  datatype TicketStatus = Wip | Pending | Resolved | Closed

  datatype TicketPriority = Low | Medium | High

  /** The string a status is stored as, which is what the status filter
      compares against. */
  function StatusName(s: TicketStatus): (r: string)
    ensures r != AllStatuses
  {
    match s
    case Wip => "wip"
    case Pending => "pending"
    case Resolved => "resolved"
    case Closed => "closed"
  }

  lemma StatusNameInjective(a: TicketStatus, b: TicketStatus)
    requires StatusName(a) == StatusName(b)
    ensures a == b
  {
  }

  /** The badge label shown for a status. */
  function StatusLabel(s: TicketStatus): string {
    match s
    case Wip => "Work In Progress"
    case Pending => "Pending"
    case Resolved => "Resolved"
    case Closed => "Closed"
  }

  /** Distinct statuses show distinct badge labels. */
  lemma StatusLabelsDistinct(a: TicketStatus, b: TicketStatus)
    requires StatusLabel(a) == StatusLabel(b)
    ensures a == b
  {
  }

  function PriorityLabel(p: TicketPriority): string {
    match p
    case Low => "Low"
    case Medium => "Medium"
    case High => "High"
  }

  /** Distinct priorities show distinct badge labels. */
  lemma PriorityLabelsDistinct(a: TicketPriority, b: TicketPriority)
    requires PriorityLabel(a) == PriorityLabel(b)
    ensures a == b
  {
  }

  datatype Ticket = Ticket(
    id: string,
    title: string,
    description: string,
    status: TicketStatus,
    priority: TicketPriority,
    projectName: string,
    assignedTo: string,
    isCodeRed: bool,
    dueDate: string,
    createdAt: string)

  /** The status filter's wildcard value, which is also its initial value. */
  const AllStatuses: string := "all"

  /** Case-insensitive search over the title and the id. */
  predicate MatchesSearch(t: Ticket, query: string) {
    Includes(Lower(t.title), Lower(query)) || Includes(Lower(t.id), Lower(query))
  }

  /** Exact status match, with "all" matching every ticket. */
  predicate MatchesStatus(t: Ticket, statusFilter: string) {
    statusFilter == AllStatuses || StatusName(t.status) == statusFilter
  }

  predicate Keeps(t: Ticket, query: string, statusFilter: string) {
    MatchesSearch(t, query) && MatchesStatus(t, statusFilter)
  }

  /** The filter callback for one query and status filter. */
  function Keeper(query: string, statusFilter: string): Ticket -> bool {
    t => Keeps(t, query, statusFilter)
  }

  /** `mockTickets.filter(...)`: a ticket is shown exactly when it is in the
      list and matches the search on its title or its id, and the status
      filter. */
  function FilterTickets(tickets: seq<Ticket>, query: string, statusFilter: string): (r: seq<Ticket>)
    ensures forall k :: 0 <= k < |r| ==>
      && r[k] in tickets
      && (Includes(Lower(r[k].title), Lower(query)) || Includes(Lower(r[k].id), Lower(query)))
      && (statusFilter == AllStatuses || StatusName(r[k].status) == statusFilter)
    ensures forall j :: 0 <= j < |tickets| && Keeps(tickets[j], query, statusFilter) ==> tickets[j] in r
  {
    Filter(tickets, Keeper(query, statusFilter))
  }

  /** The filtered list is the order-preserving subsequence made of exactly
      the kept tickets. */
  lemma FilterIsKeptSubsequence(tickets: seq<Ticket>, query: string, statusFilter: string)
    ensures exists idx :: SelectsKept(idx, FilterTickets(tickets, query, statusFilter), tickets, Keeper(query, statusFilter))
  {
    var keep := Keeper(query, statusFilter);
    FilterSelectsKept(tickets, keep);
    var idx :| SelectsKept(idx, Filter(tickets, keep), tickets, keep);
    assert SelectsKept(idx, FilterTickets(tickets, query, statusFilter), tickets, keep);
  }

  /** An empty search with the "all" filter keeps every ticket, since every
      string includes "". */
  lemma FilterNothing(tickets: seq<Ticket>)
    ensures FilterTickets(tickets, "", AllStatuses) == tickets
  {
    assert Lower("") == "";
    forall t | t in tickets
      ensures Keeper("", AllStatuses)(t)
    {
      IncludesEmpty(Lower(t.title));
    }
    FilterAll(tickets, Keeper("", AllStatuses));
  }

  /** Filtering the filtered list again with the same query and filter
      changes nothing. */
  lemma FilterTicketsIdempotent(tickets: seq<Ticket>, query: string, statusFilter: string)
    ensures FilterTickets(FilterTickets(tickets, query, statusFilter), query, statusFilter)
         == FilterTickets(tickets, query, statusFilter)
  {
    FilterIdempotent(tickets, Keeper(query, statusFilter));
  }

  /** A status filter other than "all" keeps only tickets of that status. */
  lemma FilterByStatus(tickets: seq<Ticket>, query: string, status: TicketStatus)
    ensures forall t :: t in FilterTickets(tickets, query, StatusName(status)) ==> t.status == status
  {
    forall t | t in FilterTickets(tickets, query, StatusName(status))
      ensures t.status == status
    {
      StatusNameInjective(t.status, status);
    }
  }

  /** "Mark Resolved" is offered to non-admins for tickets that are neither
      resolved nor closed. */
  predicate ShowsMarkResolved(isAdmin: bool, t: Ticket) {
    !isAdmin && t.status != Resolved && t.status != Closed
  }

  /** "Escalate" is offered to non-admins for tickets not already flagged
      code red; the status is not consulted. */
  predicate ShowsEscalate(isAdmin: bool, t: Ticket) {
    !isAdmin && !t.isCodeRed
  }

  /** "Mark Resolved" is offered exactly on the open tickets, wip or
      pending, and only to non-admins. */
  lemma MarkResolvedOnOpenTickets(isAdmin: bool, t: Ticket)
    ensures ShowsMarkResolved(isAdmin, t) <==> !isAdmin && t.status in {Wip, Pending}
  {
  }

  /** "Escalate" does not depend on the status: changing it changes nothing. */
  lemma EscalateIgnoresStatus(isAdmin: bool, t: Ticket, status: TicketStatus)
    ensures ShowsEscalate(isAdmin, t) <==> ShowsEscalate(isAdmin, t.(status := status))
    ensures ShowsEscalate(isAdmin, t) <==> !isAdmin && !t.isCodeRed
  {
  }

  datatype TicketCard = TicketCard(
    id: string,
    title: string,
    codeRedBadge: bool,
    statusLabel: string,
    priorityLabel: string,
    assignee: string,
    markResolved: bool,
    escalate: bool)

  function Card(isAdmin: bool, t: Ticket): TicketCard {
    TicketCard(t.id, t.title, t.isCodeRed, StatusLabel(t.status), PriorityLabel(t.priority),
               BeforeFirst(t.assignedTo, '@'), ShowsMarkResolved(isAdmin, t), ShowsEscalate(isAdmin, t))
  }

  datatype TicketsView = TicketsView(
    heading: string,
    newTicketDialog: bool,
    cards: seq<TicketCard>,
    emptyState: Option<string>)

  const NoMatchMessage: string := "Try adjusting your filters"
  const NoTicketsMessage: string := "No tickets have been created yet"

  /** What the page renders for a viewer, the ticket list and the two filter
      inputs. */
  function TicketsPage(isAdmin: bool, tickets: seq<Ticket>, query: string, statusFilter: string): (v: TicketsView)
    ensures v.newTicketDialog <==> isAdmin
    ensures |v.cards| == |FilterTickets(tickets, query, statusFilter)|
    ensures forall k :: 0 <= k < |v.cards| ==>
      var t := FilterTickets(tickets, query, statusFilter)[k];
      && v.cards[k].id == t.id
      && (v.cards[k].markResolved <==> !isAdmin && t.status in {Wip, Pending})
      && (v.cards[k].escalate <==> !isAdmin && !t.isCodeRed)
      && v.cards[k].assignee == BeforeFirst(t.assignedTo, '@')
      && '@' !in v.cards[k].assignee && StartsWith(t.assignedTo, v.cards[k].assignee)
      && ('@' in t.assignedTo ==> t.assignedTo[|v.cards[k].assignee|] == '@')
      && ('@' !in t.assignedTo ==> v.cards[k].assignee == t.assignedTo)
    ensures v.emptyState.Some? <==> v.cards == []
  {
    var shown := FilterTickets(tickets, query, statusFilter);
    TicketsView(
      if isAdmin then "All Tickets" else "My Tickets",
      isAdmin,
      seq(|shown|, k requires 0 <= k < |shown| => Card(isAdmin, shown[k])),
      if |shown| != 0 then None
      else if query != "" || statusFilter != AllStatuses then Some(NoMatchMessage)
      else Some(NoTicketsMessage))
  }

  /** The empty state asks to adjust the filters exactly when nothing matched
      and some filter is active, and says no tickets exist exactly when the
      ticket list itself is empty and no filter is active. */
  lemma EmptyStateMessages(isAdmin: bool, tickets: seq<Ticket>, query: string, statusFilter: string)
    ensures var v := TicketsPage(isAdmin, tickets, query, statusFilter);
      && (v.emptyState == Some(NoMatchMessage) <==>
            FilterTickets(tickets, query, statusFilter) == [] && (query != "" || statusFilter != AllStatuses))
      && (v.emptyState == Some(NoTicketsMessage) <==>
            tickets == [] && query == "" && statusFilter == AllStatuses)
  {
    if query == "" && statusFilter == AllStatuses {
      FilterNothing(tickets);
    }
  }

  /** An admin is offered neither per-ticket action. */
  lemma AdminSeesNoTicketActions(tickets: seq<Ticket>, query: string, statusFilter: string)
    ensures forall c :: c in TicketsPage(true, tickets, query, statusFilter).cards ==> !c.markResolved && !c.escalate
  {
  }

  /** A closed ticket that is not flagged still offers "Escalate" to a
      non-admin, though it offers no "Mark Resolved". */
  lemma ClosedTicketStillEscalates(t: Ticket)
    requires t.status == Closed && !t.isCodeRed
    ensures ShowsEscalate(false, t) && !ShowsMarkResolved(false, t)
  {
  }
}
