/** The open database as a mutable object: one field per table and per id
    counter. Each method performs the statements of one helper of the
    integrity engine, in order, and is proved to leave the store in the state
    the matching function of module Tables describes. */
module Store {
  import opened Tables

  class Store {
    var agents: map<int, Agent>
    var books: map<int, Book>
    var authors: map<int, Author>
    var customers: map<int, Customer>
    var salaries: map<int, Salary>
    var benefits: map<int, WorkBenefit>
    var agentBenefit: seq<Link>
    var agentSalary: seq<Link>
    var bookAuthor: seq<Link>
    var customerAgentBook: seq<Snapshot>
    var nextAgent: int
    var nextBook: int
    var nextAuthor: int
    var nextCustomer: int
    var nextSalary: int
    var nextBenefit: int

    /** The tables as a value. */
    function State(): Db
      reads this
    {
      Db(agents, books, authors, customers, salaries, benefits,
         agentBenefit, agentSalary, bookAuthor, customerAgentBook,
         nextAgent, nextBook, nextAuthor, nextCustomer, nextSalary, nextBenefit)
    }

    /** Freshly created, empty tables. */
    constructor ()
      ensures State() == EmptyDb()
    {
      agents, books, authors, customers, salaries, benefits := map[], map[], map[], map[], map[], map[];
      agentBenefit, agentSalary, bookAuthor, customerAgentBook := [], [], [], [];
      nextAgent, nextBook, nextAuthor, nextCustomer, nextSalary, nextBenefit := 1, 1, 1, 1, 1, 1;
    }

    // -- inserts returning the generated id --------------------------------

    method InsertAgent(row: Agent) returns (id: int)
      modifies this
      ensures (State(), id) == Tables.InsertAgent(old(State()), row)
    {
      id := nextAgent;
      agents := agents[id := row];
      nextAgent := nextAgent + 1;
    }

    method InsertBook(row: Book) returns (id: int)
      modifies this
      ensures (State(), id) == Tables.InsertBook(old(State()), row)
    {
      id := nextBook;
      books := books[id := row];
      nextBook := nextBook + 1;
    }

    method InsertAuthor(row: Author) returns (id: int)
      modifies this
      ensures (State(), id) == Tables.InsertAuthor(old(State()), row)
    {
      id := nextAuthor;
      authors := authors[id := row];
      nextAuthor := nextAuthor + 1;
    }

    method InsertCustomer(row: Customer) returns (id: int)
      modifies this
      ensures (State(), id) == Tables.InsertCustomer(old(State()), row)
    {
      id := nextCustomer;
      customers := customers[id := row];
      nextCustomer := nextCustomer + 1;
    }

    method InsertSalary(row: Salary) returns (id: int)
      modifies this
      ensures (State(), id) == Tables.InsertSalary(old(State()), row)
    {
      id := nextSalary;
      salaries := salaries[id := row];
      nextSalary := nextSalary + 1;
    }

    method InsertBookAuthor(bookId: int, authorId: int)
      modifies this
      ensures State() == LinkBookAuthor(old(State()), bookId, authorId)
    {
      bookAuthor := bookAuthor + [Link(bookId, authorId)];
    }

    method InsertSnapshot(customerId: int, agentId: int, bookId: int)
      modifies this
      ensures State() == AddSnapshot(old(State()), customerId, agentId, bookId)
    {
      customerAgentBook := customerAgentBook + [Snapshot(customerId, agentId, bookId)];
    }

    // -- benefits ------------------------------------------------------------

    /** addBenefitsToAgent: a WorkBenefits row, then the AgentBenefit row
        pointing to its generated id. */
    method AddBenefitsToAgent(agentId: int, salaryBonus: int, paidLeaveDays: int)
      modifies this
      ensures State() == AddBenefits(old(State()), agentId, salaryBonus, paidLeaveDays)
    {
      var benefitId := nextBenefit;
      benefits := benefits[benefitId := WorkBenefit(agentId, salaryBonus, paidLeaveDays)];
      nextBenefit := nextBenefit + 1;
      agentBenefit := agentBenefit + [Link(agentId, benefitId)];
    }

    /** removeBenefitsFromAgent: delete the WorkBenefits row of every benefit
        id the agent's links name, one at a time, then the links. */
    method RemoveBenefitsFromAgent(agentId: int)
      modifies this
      ensures State() == RemoveBenefits(old(State()), agentId)
    {
      var benefitIds := TargetsOf(agentBenefit, agentId);
      var k := 0;
      while k < |benefitIds|
        invariant 0 <= k <= |benefitIds|
        invariant benefits == old(benefits) - (set b | b in benefitIds[..k])
        invariant State() == old(State()).(benefits := benefits)
      {
        assert benefitIds[..k + 1] == benefitIds[..k] + [benefitIds[k]];
        benefits := benefits - {benefitIds[k]};
        k := k + 1;
      }
      assert benefitIds[..k] == benefitIds;
      agentBenefit := DropOwner(agentBenefit, agentId);
    }

    /** agentHasBenefits: whether any AgentBenefit row names the agent. */
    method AgentHasBenefits(agentId: int) returns (has: bool)
      ensures has <==> exists l :: l in agentBenefit && l.owner == agentId
      ensures has == OwnsLink(agentBenefit, agentId)
    {
      var linkCount := CountOwned(agentBenefit, agentId);
      OwnsLinkIff(agentBenefit, agentId);
      has := linkCount > 0;
    }

    // -- salaries ------------------------------------------------------------

    /** agentHasSalary: whether any AgentSalary row names the agent. */
    method AgentHasSalary(agentId: int) returns (has: bool)
      ensures has <==> exists l :: l in agentSalary && l.owner == agentId
      ensures has == OwnsLink(agentSalary, agentId)
    {
      var count := CountOwned(agentSalary, agentId);
      OwnsLinkIff(agentSalary, agentId);
      has := count > 0;
    }

    /** addAgentSalaryLink: link only an agent without a salary link; the
        result says whether the link was made. */
    method AddAgentSalaryLink(agentId: int, salaryId: int) returns (linked: bool)
      modifies this
      ensures (State(), linked) == Tables.AddAgentSalaryLink(old(State()), agentId, salaryId)
    {
      var has := AgentHasSalary(agentId);
      if has {
        return false;
      }
      agentSalary := agentSalary + [Link(agentId, salaryId)];
      linked := true;
    }

    method RemoveAgentSalaryLinksForSalary(salaryId: int)
      modifies this
      ensures State() == Tables.RemoveAgentSalaryLinksForSalary(old(State()), salaryId)
    {
      agentSalary := DropTarget(agentSalary, salaryId);
    }

    // -- updates -------------------------------------------------------------

    /** The UPDATE statement; `ok` is false when the statement is rejected
        (the column does not exist), and then nothing changes. */
    method UpdateColumn(t: Table, id: int, column: string, value: string) returns (ok: bool)
      modifies this
      ensures ok <==> IsColumn(t, column)
      ensures ok ==> State() == SetColumn(old(State()), t, id, column, value).value
      ensures !ok ==> State() == old(State())
    {
      if !IsColumn(t, column) {
        return false;
      }
      ok := true;
      match t
      case Agents => UpdateAgentRow(id, column, value);
      case Books => UpdateBookRow(id, column, value);
      case Authors => UpdateAuthorRow(id, column, value);
      case Customers => UpdateCustomerRow(id, column, value);
      case Salaries => UpdateSalaryRow(id, column, value);
    }

    method UpdateAgentRow(id: int, column: string, value: string)
      modifies this
      ensures State() == Tables.UpdateAgentRow(old(State()), id, column, value)
    {
      if id in agents { agents := agents[id := SetAgentColumn(agents[id], column, value)]; }
    }

    method UpdateBookRow(id: int, column: string, value: string)
      modifies this
      ensures State() == Tables.UpdateBookRow(old(State()), id, column, value)
    {
      if id in books { books := books[id := SetBookColumn(books[id], column, value)]; }
    }

    method UpdateAuthorRow(id: int, column: string, value: string)
      modifies this
      ensures State() == Tables.UpdateAuthorRow(old(State()), id, column, value)
    {
      if id in authors { authors := authors[id := SetAuthorColumn(authors[id], column, value)]; }
    }

    method UpdateCustomerRow(id: int, column: string, value: string)
      modifies this
      ensures State() == Tables.UpdateCustomerRow(old(State()), id, column, value)
    {
      if id in customers { customers := customers[id := SetCustomerColumn(customers[id], column, value)]; }
    }

    method UpdateSalaryRow(id: int, column: string, value: string)
      modifies this
      ensures State() == Tables.UpdateSalaryRow(old(State()), id, column, value)
    {
      if id in salaries { salaries := salaries[id := SetSalaryColumn(salaries[id], column, value)]; }
    }

    /** Replace the customer's CustomerAgentBook rows by one with its current
        agent and book, if the customer exists. */
    method RefreshCustomerSnapshot(customerId: int)
      modifies this
      ensures State() == RefreshSnapshot(old(State()), customerId)
    {
      customerAgentBook := DropCustomerRows(customerAgentBook, customerId);
      if customerId in customers {
        var c := customers[customerId];
        customerAgentBook := customerAgentBook + [Snapshot(customerId, c.agentId, c.bookId)];
      }
    }

    // -- cascade deletes -----------------------------------------------------

    method CascadeDeleteAgent(agentId: int)
      modifies this
      ensures State() == Tables.CascadeDeleteAgent(old(State()), agentId)
    {
      ghost var target := Tables.CascadeDeleteAgent(State(), agentId);
      RemoveBenefitsFromAgent(agentId);
      assert benefits == target.benefits && agentBenefit == target.agentBenefit;
      agentSalary := DropOwner(agentSalary, agentId);
      customerAgentBook := DropAgentRows(customerAgentBook, agentId);
      customers := ResetCustomerAgent(customers, agentId);
      agents := agents - {agentId};
      assert State() == target;
    }

    method CascadeDeleteBook(bookId: int)
      modifies this
      ensures State() == Tables.CascadeDeleteBook(old(State()), bookId)
    {
      ghost var target := Tables.CascadeDeleteBook(State(), bookId);
      bookAuthor := DropOwner(bookAuthor, bookId);
      customerAgentBook := DropBookRows(customerAgentBook, bookId);
      customers := ResetCustomerBook(customers, bookId);
      books := books - {bookId};
      assert State() == target;
    }

    method CascadeDeleteAuthor(authorId: int)
      modifies this
      ensures State() == Tables.CascadeDeleteAuthor(old(State()), authorId)
    {
      bookAuthor := DropTarget(bookAuthor, authorId);
      books := ResetBookAuthor(books, authorId);
      authors := authors - {authorId};
    }

    method CascadeDeleteCustomer(customerId: int)
      modifies this
      ensures State() == Tables.CascadeDeleteCustomer(old(State()), customerId)
    {
      customerAgentBook := DropCustomerRows(customerAgentBook, customerId);
      customers := customers - {customerId};
    }

    method CascadeDeleteSalary(salaryId: int)
      modifies this
      ensures State() == Tables.CascadeDeleteSalary(old(State()), salaryId)
    {
      RemoveAgentSalaryLinksForSalary(salaryId);
      salaries := salaries - {salaryId};
    }
  }
}
