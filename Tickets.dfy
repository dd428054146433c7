/**
 * Ticket creation: the role policy per ticket type, assignee selection,
 * duplicate detection and the strike-off cascade, over an in-memory ticket
 * table held by `TicketsController`.
 */
module Tickets {
  import opened Wrappers
  import opened Seqs

  datatype TicketType = ManagementReport | RegistrationAddressChange | StrikeOff
  datatype TicketCategory = Accounting | Corporate | Management
  datatype TicketStatus = Open | Resolved
  datatype UserRole = Accountant | CorporateSecretary | Director

  /** A user row; `createdAt` orders users by creation time. */
  datatype User = User(id: int, role: UserRole, companyId: int, createdAt: int)

  datatype Ticket = Ticket(
    id: int,
    ticketType: TicketType,
    category: TicketCategory,
    companyId: int,
    assigneeId: int,
    status: TicketStatus)

  /** What `create` returns to its caller. */
  datatype TicketDto = TicketDto(
    id: int,
    ticketType: TicketType,
    companyId: int,
    assigneeId: int,
    status: TicketStatus,
    category: TicketCategory)

  function RoleName(r: UserRole): string {
    match r
    case Accountant => "accountant"
    case CorporateSecretary => "corporateSecretary"
    case Director => "director"
  }

  /** The category a ticket type files under, who handles it, and who stands in. */
  datatype RolePolicy = RolePolicy(category: TicketCategory, primaryRole: UserRole, fallbackRole: Option<UserRole>)

  /**
   * The policy table: only an address change has a stand-in, the director, who
   * differs from its primary role; only a management report files under accounting.
   */
  function PolicyFor(t: TicketType): (r: RolePolicy)
    ensures r.fallbackRole.Some? <==> t == RegistrationAddressChange
    ensures r.fallbackRole.Some? ==> r.fallbackRole.value == Director && r.primaryRole != Director
    ensures r.category == Accounting <==> t == ManagementReport
  {
    match t
    case ManagementReport => RolePolicy(Accounting, Accountant, None)
    case StrikeOff => RolePolicy(Management, Director, None)
    case RegistrationAddressChange => RolePolicy(Corporate, CorporateSecretary, Some(Director))
  }

  /** The three conflicts `create` reports. */
  datatype CreateError = DuplicateTicket | NoAssignee(roleMessage: string) | MultipleAssignees(role: UserRole)

  /**
   * The text each conflict is raised with. The role named in a "no user" or
   * "several users" message can be read back from the message.
   */
  function ErrorMessage(e: CreateError): (r: string)
    ensures e.NoAssignee? ==> |r| == |e.roleMessage| + 46 && r[27..|r| - 19] == e.roleMessage
    ensures e.MultipleAssignees? ==> |r| == |RoleName(e.role)| + 49 && r[25..|r| - 24] == RoleName(e.role)
  {
    match e
    case DuplicateTicket => "A registrationAddressChange ticket already exists for this company"
    case NoAssignee(roles) => "Cannot find user with role " + roles + " to create a ticket"
    case MultipleAssignees(role) => "Multiple users with role " + RoleName(role) + ". Cannot create a ticket"
  }

  // ----- the two reads `create` makes -----

  /** `createdAt DESC`: `a` may be listed before `b`. */
  predicate NewerFirst(a: User, b: User) {
    a.createdAt >= b.createdAt
  }

  /** The company's users holding a role the policy names, newest first. */
  function CandidateUsers(users: seq<User>, companyId: int, p: RolePolicy): (r: seq<User>)
    ensures forall u {:trigger multiset(r)[u]} ::
      multiset(r)[u] == if u.companyId == companyId && (u.role == p.primaryRole || p.fallbackRole == Some(u.role)) then multiset(users)[u] else 0
    ensures SortedBy(r, NewerFirst)
  {
    var relevant := Filter(users, (u: User) => u.companyId == companyId && (u.role == p.primaryRole || p.fallbackRole == Some(u.role)));
    FilterCount(users, (u: User) => u.companyId == companyId && (u.role == p.primaryRole || p.fallbackRole == Some(u.role)));
    NewerFirstIsTotal();
    SortIsSorted(relevant, NewerFirst);
    InsertionSort(relevant, NewerFirst)
  }

  /** The open tickets of the company that `create` looks at for this type. */
  function ExistingTickets(tickets: seq<Ticket>, companyId: int, t: TicketType): (r: seq<Ticket>)
    ensures t == ManagementReport ==> r == []
    ensures t != ManagementReport ==> forall x {:trigger x in r} :: x in r <==>
      x in tickets && x.companyId == companyId && x.status == Open && (t == RegistrationAddressChange ==> x.ticketType == t)
  {
    match t
    case RegistrationAddressChange =>
      FilterMembers(tickets, (x: Ticket) => x.companyId == companyId && x.status == Open && x.ticketType == RegistrationAddressChange);
      Filter(tickets, (x: Ticket) => x.companyId == companyId && x.status == Open && x.ticketType == RegistrationAddressChange)
    case StrikeOff =>
      FilterMembers(tickets, (x: Ticket) => x.companyId == companyId && x.status == Open);
      Filter(tickets, (x: Ticket) => x.companyId == companyId && x.status == Open)
    case ManagementReport => []
  }

  function WithRole(users: seq<User>, role: UserRole): (r: seq<User>)
    ensures forall u {:trigger multiset(r)[u]} :: multiset(r)[u] == if u.role == role then multiset(users)[u] else 0
    ensures SortedBy(users, NewerFirst) ==> SortedBy(r, NewerFirst)
  {
    FilterCount(users, (u: User) => u.role == role);
    FilterSorted(users, (u: User) => u.role == role, NewerFirst);
    Filter(users, (u: User) => u.role == role)
  }

  // ----- the decision -----

  /** An address change is requested while the company already has one open. */
  predicate IsDuplicate(tickets: seq<Ticket>, companyId: int, t: TicketType)
    ensures IsDuplicate(tickets, companyId, t) <==> t == RegistrationAddressChange && HasOpenAddressChange(tickets, companyId)
  {
    var existing := ExistingTickets(tickets, companyId, t);
    if t == RegistrationAddressChange then
      ExistingAddressChanges(tickets, companyId, t);
      exists k :: 0 <= k < |existing| && existing[k].ticketType == RegistrationAddressChange
    else false
  }

  /** The open address changes among the fetched tickets are the table's. */
  lemma ExistingAddressChanges(tickets: seq<Ticket>, companyId: int, t: TicketType)
    requires t == RegistrationAddressChange
    ensures var existing := ExistingTickets(tickets, companyId, t);
      (exists k :: 0 <= k < |existing| && existing[k].ticketType == RegistrationAddressChange)
        <==> HasOpenAddressChange(tickets, companyId)
  {
    var existing := ExistingTickets(tickets, companyId, t);
    if k :| 0 <= k < |existing| && existing[k].ticketType == RegistrationAddressChange {
      assert existing[k] in existing;
      var i :| 0 <= i < |tickets| && tickets[i] == existing[k];
      assert IsOpenAddressChange(tickets[i], companyId);
    }
    if HasOpenAddressChange(tickets, companyId) {
      var i :| 0 <= i < |tickets| && IsOpenAddressChange(tickets[i], companyId);
      assert tickets[i] in existing;
      var k :| 0 <= k < |existing| && existing[k] == tickets[i];
    }
  }

  /**
   * The assignee chosen from `candidates` (the fetched users, newest first), or
   * "no user" / "several users".
   */
  function ChooseAssignee(candidates: seq<User>, t: TicketType): (r: Result<User, CreateError>)
    ensures r != Failure(DuplicateTicket)
    ensures r.Success? ==>
      && r.value in candidates
      && (r.value.role == PolicyFor(t).primaryRole || PolicyFor(t).fallbackRole == Some(r.value.role))
  {
    var policy := PolicyFor(t);
    var primary := WithRole(candidates, policy.primaryRole);
    var useFallback := t == RegistrationAddressChange && |primary| == 0 && policy.fallbackRole.Some?;
    var assignees := if useFallback then WithRole(candidates, policy.fallbackRole.value) else primary;
    var selectedRole := if useFallback then policy.fallbackRole.value else policy.primaryRole;
    assert |assignees| > 0 ==> multiset(assignees)[assignees[0]] > 0;
    if |assignees| == 0 then
      Failure(NoAssignee(if t == RegistrationAddressChange then "corporateSecretary or director" else RoleName(policy.primaryRole)))
    else if (selectedRole == CorporateSecretary || selectedRole == Director) && |assignees| > 1 then
      Failure(MultipleAssignees(selectedRole))
    else
      Success(assignees[0])
  }

  /**
   * The assignee `create` picks, or the conflict it raises. The checks run in
   * the controller's order: duplicate, then no user, then several users.
   */
  function Assignment(users: seq<User>, tickets: seq<Ticket>, companyId: int, t: TicketType): (r: Result<User, CreateError>)
    ensures r.Success? ==>
      && r.value in users && r.value.companyId == companyId
      && (r.value.role == PolicyFor(t).primaryRole || PolicyFor(t).fallbackRole == Some(r.value.role))
  {
    if IsDuplicate(tickets, companyId, t) then Failure(DuplicateTicket)
    else
      var candidates := CandidateUsers(users, companyId, PolicyFor(t));
      var r := ChooseAssignee(candidates, t);
      assert r.Success? ==> multiset(candidates)[r.value] > 0;
      r
  }

  // ----- the writes -----

  /** The row `create` inserts: open, under its type's category, for the chosen assignee. */
  function NewTicket(id: int, companyId: int, t: TicketType, assignee: User): (r: Ticket)
    ensures r.id == id && r.ticketType == t && r.companyId == companyId && r.assigneeId == assignee.id
    ensures r.status == Open && r.category == PolicyFor(r.ticketType).category
  {
    Ticket(id, t, PolicyFor(t).category, companyId, assignee.id, Open)
  }

  function TicketIds(ts: seq<Ticket>): set<int> {
    set i | 0 <= i < |ts| :: ts[i].id
  }

  /** `Ticket.update({status: resolved}, {where: {id: ids}})`. */
  function ResolveIds(tickets: seq<Ticket>, ids: set<int>): (r: seq<Ticket>)
    ensures |r| == |tickets|
  {
    seq(|tickets|, i requires 0 <= i < |tickets| =>
      if tickets[i].id in ids then tickets[i].(status := Resolved) else tickets[i])
  }

  /** The ticket table after a successful `create` that picked `assignee`. */
  function StoreAfterCreate(tickets: seq<Ticket>, companyId: int, t: TicketType, assignee: User, id: int): (r: seq<Ticket>)
    ensures |r| == |tickets| + 1 && r[|tickets|] == NewTicket(id, companyId, t, assignee)
    ensures forall i :: 0 <= i < |tickets| ==>
      r[i] == tickets[i] || (t == StrikeOff && r[i] == tickets[i].(status := Resolved))
  {
    var existing := ExistingTickets(tickets, companyId, t);
    var created := NewTicket(id, companyId, t, assignee);
    if t == StrikeOff then
      (if |existing| > 0 then ResolveIds(tickets, TicketIds(existing)) else tickets) + [created]
    else tickets + [created]
  }

  /** The response carries every column of the stored row: the row can be read back from it. */
  function BuildTicketDto(t: Ticket): (r: TicketDto)
    ensures TicketOfDto(r) == t
  {
    TicketDto(t.id, t.ticketType, t.companyId, t.assigneeId, t.status, t.category)
  }

  function TicketOfDto(d: TicketDto): Ticket {
    Ticket(d.id, d.ticketType, d.category, d.companyId, d.assigneeId, d.status)
  }

  // ----- what the table keeps -----

  predicate IsOpenAddressChange(t: Ticket, companyId: int) {
    t.companyId == companyId && t.status == Open && t.ticketType == RegistrationAddressChange
  }

  predicate HasOpenAddressChange(tickets: seq<Ticket>, companyId: int) {
    exists i :: 0 <= i < |tickets| && IsOpenAddressChange(tickets[i], companyId)
  }

  /**
   * Ids are unique and below the next id to hand out, every category is the one
   * its type dictates, and no company has two open address-change tickets.
   */
  ghost predicate StoreInvariant(tickets: seq<Ticket>, nextId: int) {
    && (forall i, j :: 0 <= i < j < |tickets| ==> tickets[i].id != tickets[j].id)
    && (forall i :: 0 <= i < |tickets| ==> tickets[i].id < nextId)
    && (forall i :: 0 <= i < |tickets| ==> tickets[i].category == PolicyFor(tickets[i].ticketType).category)
    && (forall i, j :: 0 <= i < j < |tickets| && tickets[i].status == Open && tickets[j].status == Open
          && tickets[i].ticketType == RegistrationAddressChange && tickets[j].ticketType == RegistrationAddressChange
          ==> tickets[i].companyId != tickets[j].companyId)
  }

  // ----- properties of the decision -----

  /** The company's users with `role`, in table order. */
  function CompanyUsers(users: seq<User>, companyId: int, role: UserRole): (r: seq<User>)
    ensures forall u {:trigger multiset(r)[u]} :: multiset(r)[u] == if u.companyId == companyId && u.role == role then multiset(users)[u] else 0
  {
    FilterCount(users, (u: User) => u.companyId == companyId && u.role == role);
    Filter(users, (u: User) => u.companyId == companyId && u.role == role)
  }

  /** `a` is a user of the company with `role`, and none of them was created later. */
  ghost predicate IsNewest(users: seq<User>, companyId: int, role: UserRole, a: User) {
    && a in users && a.companyId == companyId && a.role == role
    && forall v :: v in users && v.companyId == companyId && v.role == role ==> v.createdAt <= a.createdAt
  }

  lemma NewerFirstIsTotal()
    ensures TotalPreorder(NewerFirst)
  {
  }

  /**
   * Narrowing the fetched users to one of the policy's roles gives exactly the
   * company's users with that role, newest first.
   */
  lemma CandidatesWithRole(users: seq<User>, companyId: int, p: RolePolicy, role: UserRole)
    requires role == p.primaryRole || p.fallbackRole == Some(role)
    ensures multiset(WithRole(CandidateUsers(users, companyId, p), role)) == multiset(CompanyUsers(users, companyId, role))
    ensures |WithRole(CandidateUsers(users, companyId, p), role)| == |CompanyUsers(users, companyId, role)|
    ensures |WithRole(CandidateUsers(users, companyId, p), role)| > 0 ==>
      IsNewest(users, companyId, role, WithRole(CandidateUsers(users, companyId, p), role)[0])
  {
    var picked := WithRole(CandidateUsers(users, companyId, p), role);
    var expected := CompanyUsers(users, companyId, role);
    assert multiset(picked) == multiset(expected) by {
      assert forall x :: multiset(picked)[x] == multiset(expected)[x];
    }
    assert |picked| == |expected| by {
      assert |multiset(picked)| == |multiset(expected)|;
    }
    if |picked| > 0 {
      var a := picked[0];
      assert a in multiset(expected);
      forall v | v in users && v.companyId == companyId && v.role == role ensures v.createdAt <= a.createdAt {
        assert v in multiset(users);
        assert v in multiset(picked);
        var k :| 0 <= k < |picked| && picked[k] == v;
        if k > 0 {
          assert NewerFirst(picked[0], picked[k]);
        }
      }
    }
  }

  /** `create` fails as a duplicate exactly for an address change while one is open. */
  lemma DuplicateDetection(users: seq<User>, tickets: seq<Ticket>, companyId: int, t: TicketType)
    ensures Assignment(users, tickets, companyId, t) == Failure(DuplicateTicket)
        <==> t == RegistrationAddressChange && HasOpenAddressChange(tickets, companyId)
  {
  }

  /**
   * A management report never fails on multiplicity: it goes to the company's
   * most recently created accountant, and fails only when there is none.
   */
  lemma ManagementReportAssignment(users: seq<User>, tickets: seq<Ticket>, companyId: int)
    ensures |CompanyUsers(users, companyId, Accountant)| == 0 ==>
      Assignment(users, tickets, companyId, ManagementReport) == Failure(NoAssignee("accountant"))
    ensures |CompanyUsers(users, companyId, Accountant)| > 0 ==>
      && Assignment(users, tickets, companyId, ManagementReport).Success?
      && IsNewest(users, companyId, Accountant, Assignment(users, tickets, companyId, ManagementReport).value)
  {
    var candidates := CandidateUsers(users, companyId, PolicyFor(ManagementReport));
    CandidatesWithRole(users, companyId, PolicyFor(ManagementReport), Accountant);
    assert Assignment(users, tickets, companyId, ManagementReport) == ChooseAssignee(candidates, ManagementReport);
    var primary := WithRole(candidates, Accountant);
    if |primary| == 0 {
      assert ChooseAssignee(candidates, ManagementReport) == Failure(NoAssignee(RoleName(Accountant)));
    } else {
      assert ChooseAssignee(candidates, ManagementReport) == Success(primary[0]);
    }
  }

  /**
   * An address change goes to the company's one corporate secretary, and to its
   * one director only when it has no secretary; otherwise it fails.
   */
  lemma AddressChangeAssignment(users: seq<User>, tickets: seq<Ticket>, companyId: int)
    requires !HasOpenAddressChange(tickets, companyId)
    ensures |CompanyUsers(users, companyId, CorporateSecretary)| == 1 ==>
      && Assignment(users, tickets, companyId, RegistrationAddressChange).Success?
      && IsNewest(users, companyId, CorporateSecretary, Assignment(users, tickets, companyId, RegistrationAddressChange).value)
    ensures |CompanyUsers(users, companyId, CorporateSecretary)| > 1 ==>
      Assignment(users, tickets, companyId, RegistrationAddressChange) == Failure(MultipleAssignees(CorporateSecretary))
    ensures |CompanyUsers(users, companyId, CorporateSecretary)| == 0 && |CompanyUsers(users, companyId, Director)| == 1 ==>
      && Assignment(users, tickets, companyId, RegistrationAddressChange).Success?
      && IsNewest(users, companyId, Director, Assignment(users, tickets, companyId, RegistrationAddressChange).value)
    ensures |CompanyUsers(users, companyId, CorporateSecretary)| == 0 && |CompanyUsers(users, companyId, Director)| > 1 ==>
      Assignment(users, tickets, companyId, RegistrationAddressChange) == Failure(MultipleAssignees(Director))
    ensures |CompanyUsers(users, companyId, CorporateSecretary)| == 0 && |CompanyUsers(users, companyId, Director)| == 0 ==>
      Assignment(users, tickets, companyId, RegistrationAddressChange) == Failure(NoAssignee("corporateSecretary or director"))
  {
    DuplicateDetection(users, tickets, companyId, RegistrationAddressChange);
    var p := PolicyFor(RegistrationAddressChange);
    CandidatesWithRole(users, companyId, p, CorporateSecretary);
    CandidatesWithRole(users, companyId, p, Director);
  }

  /** A strike-off goes to the company's only director, and fails on none or several. */
  lemma StrikeOffAssignment(users: seq<User>, tickets: seq<Ticket>, companyId: int)
    ensures |CompanyUsers(users, companyId, Director)| == 0 ==>
      Assignment(users, tickets, companyId, StrikeOff) == Failure(NoAssignee("director"))
    ensures |CompanyUsers(users, companyId, Director)| == 1 ==>
      && Assignment(users, tickets, companyId, StrikeOff).Success?
      && IsNewest(users, companyId, Director, Assignment(users, tickets, companyId, StrikeOff).value)
    ensures |CompanyUsers(users, companyId, Director)| > 1 ==>
      Assignment(users, tickets, companyId, StrikeOff) == Failure(MultipleAssignees(Director))
  {
    CandidatesWithRole(users, companyId, PolicyFor(StrikeOff), Director);
  }

  // ----- properties of the writes -----

  /** With unique ids, resolving by the ids of the company's open tickets hits no other ticket. */
  lemma ResolvedIdsAreTargets(tickets: seq<Ticket>, nextId: int, companyId: int, i: int)
    requires StoreInvariant(tickets, nextId)
    requires 0 <= i < |tickets| && !(tickets[i].companyId == companyId && tickets[i].status == Open)
    ensures tickets[i].id !in TicketIds(ExistingTickets(tickets, companyId, StrikeOff))
  {
    var existing := ExistingTickets(tickets, companyId, StrikeOff);
    forall k | 0 <= k < |existing| ensures existing[k].id != tickets[i].id {
      assert existing[k] in existing;
    }
  }

  /**
   * A strike-off resolves exactly the company's open tickets, touches no other
   * ticket, removes none, and leaves the new ticket the company's only open one.
   */
  lemma StrikeOffCascade(tickets: seq<Ticket>, nextId: int, companyId: int, assignee: User)
    requires StoreInvariant(tickets, nextId)
    ensures var r := StoreAfterCreate(tickets, companyId, StrikeOff, assignee, nextId);
      && |r| == |tickets| + 1
      && r[|tickets|] == NewTicket(nextId, companyId, StrikeOff, assignee)
      && (forall i :: 0 <= i < |tickets| ==>
            r[i] == if tickets[i].companyId == companyId && tickets[i].status == Open
                    then tickets[i].(status := Resolved) else tickets[i])
      && (forall i :: 0 <= i < |r| ==> (r[i].companyId == companyId && r[i].status == Open <==> i == |tickets|))
  {
    var existing := ExistingTickets(tickets, companyId, StrikeOff);
    var ids := TicketIds(existing);
    var r := StoreAfterCreate(tickets, companyId, StrikeOff, assignee, nextId);
    forall i | 0 <= i < |tickets|
      ensures r[i] == if tickets[i].companyId == companyId && tickets[i].status == Open
                      then tickets[i].(status := Resolved) else tickets[i]
    {
      var target := tickets[i].companyId == companyId && tickets[i].status == Open;
      if target {
        assert tickets[i] in existing;
        var k :| 0 <= k < |existing| && existing[k] == tickets[i];
        assert tickets[i].id in ids;
      } else {
        ResolvedIdsAreTargets(tickets, nextId, companyId, i);
      }
    }
  }

  /**
   * A successful `create` adds one open ticket of the requested type, filed
   * under its policy's category and assigned to the chosen user; apart from a
   * strike-off's cascade it leaves the earlier tickets as they were.
   */
  lemma CreateAppendsTicket(tickets: seq<Ticket>, nextId: int, companyId: int, t: TicketType, assignee: User)
    ensures var r := StoreAfterCreate(tickets, companyId, t, assignee, nextId);
      && |r| == |tickets| + 1
      && r[|tickets|].id == nextId && r[|tickets|].ticketType == t && r[|tickets|].companyId == companyId
      && r[|tickets|].status == Open && r[|tickets|].category == PolicyFor(t).category
      && r[|tickets|].assigneeId == assignee.id
      && (t != StrikeOff ==> r[..|tickets|] == tickets)
    ensures StoreAfterCreate(tickets, companyId, t, assignee, nextId)[|tickets|].category
      == match t
         case ManagementReport => Accounting
         case StrikeOff => Management
         case RegistrationAddressChange => Corporate
  {
  }

  /**
   * Every successful `create` keeps the table's invariant; in particular the
   * company never gets a second open address change.
   */
  lemma CreatePreservesInvariant(users: seq<User>, tickets: seq<Ticket>, nextId: int, companyId: int, t: TicketType)
    requires StoreInvariant(tickets, nextId)
    requires Assignment(users, tickets, companyId, t).Success?
    ensures StoreInvariant(StoreAfterCreate(tickets, companyId, t, Assignment(users, tickets, companyId, t).value, nextId), nextId + 1)
  {
    var a := Assignment(users, tickets, companyId, t).value;
    var created := NewTicket(nextId, companyId, t, a);
    var existing := ExistingTickets(tickets, companyId, t);
    if t == RegistrationAddressChange {
      DuplicateDetection(users, tickets, companyId, t);
      AppendPreservesInvariant(tickets, nextId, created);
    } else if t == StrikeOff {
      var kept := if |existing| > 0 then ResolveIds(tickets, TicketIds(existing)) else tickets;
      if |existing| > 0 {
        ResolvePreservesInvariant(tickets, nextId, TicketIds(existing));
      }
      AppendPreservesInvariant(kept, nextId, created);
    } else {
      AppendPreservesInvariant(tickets, nextId, created);
    }
  }

  /** Appending a ticket with the next id keeps the invariant, unless it is a second open address change. */
  lemma AppendPreservesInvariant(tickets: seq<Ticket>, nextId: int, created: Ticket)
    requires StoreInvariant(tickets, nextId)
    requires created.id == nextId && created.category == PolicyFor(created.ticketType).category
    requires created.status == Open && created.ticketType == RegistrationAddressChange ==>
      !HasOpenAddressChange(tickets, created.companyId)
    ensures StoreInvariant(tickets + [created], nextId + 1)
  {
    var r := tickets + [created];
    forall i, j | 0 <= i < j < |r| && r[i].status == Open && r[j].status == Open
        && r[i].ticketType == RegistrationAddressChange && r[j].ticketType == RegistrationAddressChange
      ensures r[i].companyId != r[j].companyId
    {
      if j == |tickets| {
        assert !IsOpenAddressChange(tickets[i], created.companyId);
      }
    }
  }

  /** Resolving tickets changes only statuses, so it keeps the invariant. */
  lemma ResolvePreservesInvariant(tickets: seq<Ticket>, nextId: int, ids: set<int>)
    requires StoreInvariant(tickets, nextId)
    ensures StoreInvariant(ResolveIds(tickets, ids), nextId)
  {
    var r := ResolveIds(tickets, ids);
    assert forall i :: 0 <= i < |r| ==>
      && r[i].id == tickets[i].id && r[i].ticketType == tickets[i].ticketType
      && r[i].category == tickets[i].category && r[i].companyId == tickets[i].companyId
      && (r[i].status == Open ==> tickets[i].status == Open);
  }

  /**
   * The ticket service: the users it reads and the ticket table it writes.
   * `nextId` stands for the table's auto-increment counter.
   */
  class TicketsController {
    const users: seq<User>
    var tickets: seq<Ticket>
    var nextId: int

    ghost predicate Valid()
      reads this
    {
      StoreInvariant(tickets, nextId)
    }

    constructor (users: seq<User>)
      ensures Valid() && this.users == users && tickets == []
    {
      this.users := users;
      tickets := [];
      nextId := 1;
    }

    /**
     * Creates a ticket of type `ticketType` for the company. On a conflict the
     * table is untouched; otherwise exactly the store update `StoreAfterCreate`
     * describes happens and the new ticket is returned.
     */
    method Create(companyId: int, ticketType: TicketType) returns (result: Result<TicketDto, CreateError>)
      requires Valid()
      modifies this
      ensures Valid()
      ensures match Assignment(users, old(tickets), companyId, ticketType)
        case Failure(e) =>
          result == Failure(e) && tickets == old(tickets) && nextId == old(nextId)
        case Success(a) =>
          && tickets == StoreAfterCreate(old(tickets), companyId, ticketType, a, old(nextId))
          && nextId == old(nextId) + 1
          && result == Success(BuildTicketDto(NewTicket(old(nextId), companyId, ticketType, a)))
    {
      var existing := ExistingTickets(tickets, companyId, ticketType);
      if IsDuplicate(tickets, companyId, ticketType) {
        return Failure(DuplicateTicket);
      }

      var chosen := Assignment(users, tickets, companyId, ticketType);
      if chosen.Failure? {
        return Failure(chosen.error);
      }

      CreatePreservesInvariant(users, tickets, nextId, companyId, ticketType);
      ghost var after := StoreAfterCreate(tickets, companyId, ticketType, chosen.value, nextId);
      var ticket := NewTicket(nextId, companyId, ticketType, chosen.value);
      if ticketType == StrikeOff {
        // The transaction: resolve the open tickets and insert the new one as one update.
        var resolved := if |existing| > 0 then ResolveIds(tickets, TicketIds(existing)) else tickets;
        tickets, nextId := resolved + [ticket], nextId + 1;
      } else {
        tickets, nextId := tickets + [ticket], nextId + 1;
      }
      assert tickets == after;
      result := Success(BuildTicketDto(ticket));
    }
  }
}
