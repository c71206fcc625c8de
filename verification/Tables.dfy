/** The agency database as a value: six entity tables keyed by ids the store
    generates (AUTOINCREMENT, so never reused), four link tables, and one id
    counter per entity table. Every change the interpreter makes to the store
    is a function on this value here; the lemmas state the integrity rules. */
module Tables {
  import opened Text

  datatype Option<T> = None | Some(value: T)

  // ---------------------------------------------------------------------------
  // Rows
  // ---------------------------------------------------------------------------

  datatype Agent = Agent(name: string, phone: string, experience: int)
  /** `authorId` 0 means "no author". */
  datatype Book = Book(authorId: int, name: string, cost: int)
  datatype Author = Author(name: string, phone: string, hourlyCharge: int)
  /** `agentId` and `bookId` 0 mean "unset". */
  datatype Customer = Customer(agentId: int, bookId: int, name: string, phone: string)
  datatype Salary = Salary(amount: int, experience: int)
  datatype WorkBenefit = WorkBenefit(agentId: int, salaryBonus: int, paidLeaveDuration: int)
  /** A row of AgentBenefit (agent, benefit), AgentSalary (agent, salary) or
      BookAuthor (book, author). */
  datatype Link = Link(owner: int, target: int)
  /** A row of CustomerAgentBook. */
  datatype Snapshot = Snapshot(customerId: int, agentId: int, bookId: int)

  datatype Db = Db(
    agents: map<int, Agent>,
    books: map<int, Book>,
    authors: map<int, Author>,
    customers: map<int, Customer>,
    salaries: map<int, Salary>,
    benefits: map<int, WorkBenefit>,
    agentBenefit: seq<Link>,
    agentSalary: seq<Link>,
    bookAuthor: seq<Link>,
    customerAgentBook: seq<Snapshot>,
    nextAgent: int,
    nextBook: int,
    nextAuthor: int,
    nextCustomer: int,
    nextSalary: int,
    nextBenefit: int)

  /** Experience (years) from which an agent is entitled to a work benefit. */
  const BenefitThreshold: int := 10
  /** The benefit every entitled agent is given. */
  const DefaultBonus: int := 0
  const DefaultLeaveDays: int := 14

  /** The freshly created tables. */
  function EmptyDb(): (db: Db)
    ensures Valid(db)
  {
    Db(map[], map[], map[], map[], map[], map[], [], [], [], [], 1, 1, 1, 1, 1, 1)
  }

  predicate KeysBelow<T>(m: map<int, T>, next: int)
  {
    next >= 1 && forall id :: id in m ==> 1 <= id < next
  }

  /** Ids are positive and below their table's counter (so the sentinel 0 is
      never an id and a counter value is never in use); link rows that are
      written only next to a freshly generated id refer to an id already
      generated. */
  predicate Valid(db: Db)
  {
    && KeysBelow(db.agents, db.nextAgent)
    && KeysBelow(db.books, db.nextBook)
    && KeysBelow(db.authors, db.nextAuthor)
    && KeysBelow(db.customers, db.nextCustomer)
    && KeysBelow(db.salaries, db.nextSalary)
    && KeysBelow(db.benefits, db.nextBenefit)
    && (forall i :: 0 <= i < |db.agentBenefit| ==> db.agentBenefit[i].target < db.nextBenefit)
    && (forall i :: 0 <= i < |db.agentSalary| ==> db.agentSalary[i].target < db.nextSalary)
    && (forall i :: 0 <= i < |db.bookAuthor| ==> db.bookAuthor[i].owner < db.nextBook)
    && (forall i :: 0 <= i < |db.customerAgentBook| ==> db.customerAgentBook[i].customerId < db.nextCustomer)
  }

  /** What the store keeps of a TEXT value it is given at registration: the
      insert statement writes an all-digit value as a number literal, so
      leading zeros are lost. */
  function StoredText(value: string): (r: string)
    ensures IsDigits(value) ==> DecimalValue(r) == DecimalValue(value)
    ensures !IsDigits(value) ==> r == value
    ensures IsDigits(value) && (value[0] != '0' || value == "0") ==> r == value
  {
    if !IsDigits(value) then value
    else if value[0] != '0' || value == "0" then
      CanonicalDigitsRoundTrip(value);
      DecimalStringRoundTrip(DecimalValue(value));
      DecimalString(DecimalValue(value))
    else
      DecimalStringRoundTrip(DecimalValue(value));
      DecimalString(DecimalValue(value))
  }

  // ---------------------------------------------------------------------------
  // Inserting entity rows (the store's generated ids)
  // ---------------------------------------------------------------------------

  function InsertAgent(db: Db, row: Agent): (r: (Db, int))
    ensures Valid(db) ==> Valid(r.0) && r.1 !in db.agents && r.1 >= 1
    ensures r.0.agents == db.agents[r.1 := row] && db.nextAgent <= r.1 < r.0.nextAgent
    ensures r.0 == db.(agents := r.0.agents, nextAgent := r.0.nextAgent)
  {
    (db.(agents := db.agents[db.nextAgent := row], nextAgent := db.nextAgent + 1), db.nextAgent)
  }

  function InsertBook(db: Db, row: Book): (r: (Db, int))
    ensures Valid(db) ==> Valid(r.0) && r.1 !in db.books && r.1 >= 1
    ensures r.0.books == db.books[r.1 := row] && db.nextBook <= r.1 < r.0.nextBook
    ensures r.0 == db.(books := r.0.books, nextBook := r.0.nextBook)
  {
    (db.(books := db.books[db.nextBook := row], nextBook := db.nextBook + 1), db.nextBook)
  }

  function InsertAuthor(db: Db, row: Author): (r: (Db, int))
    ensures Valid(db) ==> Valid(r.0) && r.1 !in db.authors && r.1 >= 1
    ensures r.0.authors == db.authors[r.1 := row] && db.nextAuthor <= r.1 < r.0.nextAuthor
    ensures r.0 == db.(authors := r.0.authors, nextAuthor := r.0.nextAuthor)
  {
    (db.(authors := db.authors[db.nextAuthor := row], nextAuthor := db.nextAuthor + 1), db.nextAuthor)
  }

  function InsertCustomer(db: Db, row: Customer): (r: (Db, int))
    ensures Valid(db) ==> Valid(r.0) && r.1 !in db.customers && r.1 >= 1
    ensures r.0.customers == db.customers[r.1 := row] && db.nextCustomer <= r.1 < r.0.nextCustomer
    ensures r.0 == db.(customers := r.0.customers, nextCustomer := r.0.nextCustomer)
  {
    (db.(customers := db.customers[db.nextCustomer := row], nextCustomer := db.nextCustomer + 1), db.nextCustomer)
  }

  function InsertSalary(db: Db, row: Salary): (r: (Db, int))
    ensures Valid(db) ==> Valid(r.0) && r.1 !in db.salaries && r.1 >= 1
    ensures r.0.salaries == db.salaries[r.1 := row] && db.nextSalary <= r.1 < r.0.nextSalary
    ensures r.0 == db.(salaries := r.0.salaries, nextSalary := r.0.nextSalary)
  {
    (db.(salaries := db.salaries[db.nextSalary := row], nextSalary := db.nextSalary + 1), db.nextSalary)
  }

  // ---------------------------------------------------------------------------
  // Link tables: bulk deletes, counts
  // ---------------------------------------------------------------------------

  /** DELETE ... WHERE owner = o. */
  function DropOwner(ls: seq<Link>, o: int): (r: seq<Link>)
    ensures forall l :: l in r <==> l in ls && l.owner != o
  {
    if ls == [] then [] else (if ls[0].owner == o then [] else [ls[0]]) + DropOwner(ls[1..], o)
  }

  /** DELETE ... WHERE target = t. */
  function DropTarget(ls: seq<Link>, t: int): (r: seq<Link>)
    ensures forall l :: l in r <==> l in ls && l.target != t
  {
    if ls == [] then [] else (if ls[0].target == t then [] else [ls[0]]) + DropTarget(ls[1..], t)
  }

  /** DELETE FROM CustomerAgentBook WHERE CustomerID = c. */
  function DropCustomerRows(ss: seq<Snapshot>, c: int): (r: seq<Snapshot>)
    ensures forall s :: s in r <==> s in ss && s.customerId != c
  {
    if ss == [] then [] else (if ss[0].customerId == c then [] else [ss[0]]) + DropCustomerRows(ss[1..], c)
  }

  /** DELETE FROM CustomerAgentBook WHERE AgentID = a. */
  function DropAgentRows(ss: seq<Snapshot>, a: int): (r: seq<Snapshot>)
    ensures forall s :: s in r <==> s in ss && s.agentId != a
  {
    if ss == [] then [] else (if ss[0].agentId == a then [] else [ss[0]]) + DropAgentRows(ss[1..], a)
  }

  /** DELETE FROM CustomerAgentBook WHERE BookID = b. */
  function DropBookRows(ss: seq<Snapshot>, b: int): (r: seq<Snapshot>)
    ensures forall s :: s in r <==> s in ss && s.bookId != b
  {
    if ss == [] then [] else (if ss[0].bookId == b then [] else [ss[0]]) + DropBookRows(ss[1..], b)
  }

  /** SELECT COUNT(*) ... WHERE owner = o. */
  function CountOwned(ls: seq<Link>, o: int): nat
  {
    if ls == [] then 0 else (if ls[0].owner == o then 1 else 0) + CountOwned(ls[1..], o)
  }

  /** The number of CustomerAgentBook rows of customer `c`. */
  function CountRows(ss: seq<Snapshot>, c: int): nat
  {
    if ss == [] then 0 else (if ss[0].customerId == c then 1 else 0) + CountRows(ss[1..], c)
  }

  /** The existence check the engine makes before linking: COUNT(*) > 0. */
  predicate OwnsLink(ls: seq<Link>, o: int)
  {
    CountOwned(ls, o) > 0
  }

  /** SELECT target ... WHERE owner = o, in row order: the benefit ids of an
      agent. */
  function TargetsOf(ls: seq<Link>, o: int): seq<int>
  {
    if ls == [] then [] else (if ls[0].owner == o then [ls[0].target] else []) + TargetsOf(ls[1..], o)
  }

  /** The same ids as a set. */
  function LinkedTargets(ls: seq<Link>, o: int): set<int>
  {
    set b | b in TargetsOf(ls, o)
  }

  /** An id is among the owner's targets exactly when the row (o, id) exists. */
  lemma {:induction false} LinkedTargetsIff(ls: seq<Link>, o: int, b: int)
    ensures b in LinkedTargets(ls, o) <==> Link(o, b) in ls
    decreases |ls|
  {
    if ls != [] {
      LinkedTargetsIff(ls[1..], o, b);
      assert Link(o, b) in ls <==> ls[0] == Link(o, b) || Link(o, b) in ls[1..];
    }
  }

  lemma {:induction false} CountOwnedAppend(a: seq<Link>, b: seq<Link>, o: int)
    ensures CountOwned(a + b, o) == CountOwned(a, o) + CountOwned(b, o)
    decreases |a|
  {
    if a != [] {
      assert (a + b)[1..] == a[1..] + b;
      CountOwnedAppend(a[1..], b, o);
    } else {
      assert a + b == b;
    }
  }

  lemma {:induction false} CountRowsAppend(a: seq<Snapshot>, b: seq<Snapshot>, c: int)
    ensures CountRows(a + b, c) == CountRows(a, c) + CountRows(b, c)
    decreases |a|
  {
    if a != [] {
      assert (a + b)[1..] == a[1..] + b;
      CountRowsAppend(a[1..], b, c);
    } else {
      assert a + b == b;
    }
  }

  /** Appending one row raises only its owner's count, by one. */
  lemma CountOwnedSnoc(ls: seq<Link>, l: Link, x: int)
    ensures CountOwned(ls + [l], x) == CountOwned(ls, x) + if l.owner == x then 1 else 0
  {
    CountOwnedAppend(ls, [l], x);
  }

  lemma CountRowsSnoc(ss: seq<Snapshot>, s: Snapshot, x: int)
    ensures CountRows(ss + [s], x) == CountRows(ss, x) + if s.customerId == x then 1 else 0
  {
    CountRowsAppend(ss, [s], x);
  }

  /** COUNT(*) > 0 is "some row is owned by `o`". */
  lemma {:induction false} OwnsLinkIff(ls: seq<Link>, o: int)
    ensures OwnsLink(ls, o) <==> exists l :: l in ls && l.owner == o
    decreases |ls|
  {
    if ls != [] {
      OwnsLinkIff(ls[1..], o);
      assert forall l :: l in ls <==> l == ls[0] || l in ls[1..];
    }
  }

  lemma {:induction false} CountRowsZero(ss: seq<Snapshot>, c: int)
    ensures CountRows(ss, c) == 0 <==> forall s :: s in ss ==> s.customerId != c
    decreases |ss|
  {
    if ss != [] {
      CountRowsZero(ss[1..], c);
      assert forall s :: s in ss <==> s == ss[0] || s in ss[1..];
    }
  }

  /** Deleting the rows of owner `o` zeroes its count and leaves every other
      owner's count as it was. */
  lemma {:induction false} CountDropOwner(ls: seq<Link>, o: int, x: int)
    ensures CountOwned(DropOwner(ls, o), x) == if x == o then 0 else CountOwned(ls, x)
    decreases |ls|
  {
    if ls != [] {
      CountDropOwner(ls[1..], o, x);
      var head := if ls[0].owner == o then [] else [ls[0]];
      CountOwnedAppend(head, DropOwner(ls[1..], o), x);
    }
  }

  /** Deleting by target never raises an owner's count. */
  lemma {:induction false} CountDropTarget(ls: seq<Link>, t: int, x: int)
    ensures CountOwned(DropTarget(ls, t), x) <= CountOwned(ls, x)
    decreases |ls|
  {
    if ls != [] {
      CountDropTarget(ls[1..], t, x);
      var head := if ls[0].target == t then [] else [ls[0]];
      CountOwnedAppend(head, DropTarget(ls[1..], t), x);
    }
  }

  lemma {:induction false} CountDropCustomerRows(ss: seq<Snapshot>, c: int, x: int)
    ensures CountRows(DropCustomerRows(ss, c), x) == if x == c then 0 else CountRows(ss, x)
    decreases |ss|
  {
    if ss != [] {
      CountDropCustomerRows(ss[1..], c, x);
      var head := if ss[0].customerId == c then [] else [ss[0]];
      CountRowsAppend(head, DropCustomerRows(ss[1..], c), x);
    }
  }

  /** Insert a BookAuthor row. */
  function LinkBookAuthor(db: Db, bookId: int, authorId: int): (r: Db)
    ensures Valid(db) && bookId < db.nextBook ==> Valid(r)
    ensures forall l :: l in r.bookAuthor <==> l in db.bookAuthor || l == Link(bookId, authorId)
    ensures |r.bookAuthor| == |db.bookAuthor| + 1 && r.bookAuthor[..|db.bookAuthor|] == db.bookAuthor
    ensures r == db.(bookAuthor := r.bookAuthor)
  {
    db.(bookAuthor := db.bookAuthor + [Link(bookId, authorId)])
  }

  /** Insert a CustomerAgentBook row. */
  function AddSnapshot(db: Db, customerId: int, agentId: int, bookId: int): (r: Db)
    ensures Valid(db) && customerId < db.nextCustomer ==> Valid(r)
    ensures CountRows(r.customerAgentBook, customerId) == CountRows(db.customerAgentBook, customerId) + 1
    ensures Snapshot(customerId, agentId, bookId) in r.customerAgentBook
    ensures forall s: Snapshot :: s.customerId != customerId ==> (s in r.customerAgentBook <==> s in db.customerAgentBook)
    ensures r == db.(customerAgentBook := r.customerAgentBook)
  {
    CountRowsSnoc(db.customerAgentBook, Snapshot(customerId, agentId, bookId), customerId);
    db.(customerAgentBook := db.customerAgentBook + [Snapshot(customerId, agentId, bookId)])
  }

  // ---------------------------------------------------------------------------
  // Benefit provisioning (addBenefitsToAgent, removeBenefitsFromAgent,
  // agentHasBenefits and the experience rule)
  // ---------------------------------------------------------------------------

  /** Insert a WorkBenefits row and an AgentBenefit row pointing to it. */
  function AddBenefits(db: Db, agentId: int, salaryBonus: int, paidLeaveDays: int): (r: Db)
    ensures Valid(db) ==> Valid(r)
  {
    var b := db.nextBenefit;
    db.(benefits := db.benefits[b := WorkBenefit(agentId, salaryBonus, paidLeaveDays)],
        nextBenefit := b + 1,
        agentBenefit := db.agentBenefit + [Link(agentId, b)])
  }

  /** Delete the WorkBenefits rows the agent's AgentBenefit rows point to, then
      those AgentBenefit rows. */
  function RemoveBenefits(db: Db, agentId: int): (r: Db)
    ensures Valid(db) ==> Valid(r)
  {
    db.(benefits := db.benefits - LinkedTargets(db.agentBenefit, agentId),
        agentBenefit := DropOwner(db.agentBenefit, agentId))
  }

  /** The benefit rule applied after an agent's experience is set. */
  function MaintainBenefits(db: Db, agentId: int, experience: int): (r: Db)
    ensures Valid(db) ==> Valid(r)
  {
    if experience >= BenefitThreshold then
      if OwnsLink(db.agentBenefit, agentId) then db
      else AddBenefits(db, agentId, DefaultBonus, DefaultLeaveDays)
    else
      if OwnsLink(db.agentBenefit, agentId) then RemoveBenefits(db, agentId)
      else db
  }

  /** Provisioning adds exactly one fresh WorkBenefits row carrying the given
      bonus and leave, and exactly one AgentBenefit row pointing to it;
      nothing else changes. */
  lemma AddBenefitsProvisions(db: Db, agentId: int, salaryBonus: int, paidLeaveDays: int)
    requires Valid(db)
    ensures var r := AddBenefits(db, agentId, salaryBonus, paidLeaveDays);
      && (exists b :: b !in db.benefits
            && (forall l :: l in db.agentBenefit ==> l.target != b)
            && r.benefits == db.benefits[b := WorkBenefit(agentId, salaryBonus, paidLeaveDays)]
            && r.agentBenefit == db.agentBenefit + [Link(agentId, b)])
      && CountOwned(r.agentBenefit, agentId) == CountOwned(db.agentBenefit, agentId) + 1
      && (forall x :: x != agentId ==> CountOwned(r.agentBenefit, x) == CountOwned(db.agentBenefit, x))
      && r == db.(benefits := r.benefits, agentBenefit := r.agentBenefit, nextBenefit := r.nextBenefit)
  {
    var b := db.nextBenefit;
    forall x
      ensures CountOwned(db.agentBenefit + [Link(agentId, b)], x)
              == CountOwned(db.agentBenefit, x) + if x == agentId then 1 else 0
    {
      CountOwnedSnoc(db.agentBenefit, Link(agentId, b), x);
    }
    forall l | l in db.agentBenefit ensures l.target != b {
      var i :| 0 <= i < |db.agentBenefit| && db.agentBenefit[i] == l;
    }
    var r := AddBenefits(db, agentId, salaryBonus, paidLeaveDays);
    assert b !in db.benefits
      && (forall l :: l in db.agentBenefit ==> l.target != b)
      && r.benefits == db.benefits[b := WorkBenefit(agentId, salaryBonus, paidLeaveDays)]
      && r.agentBenefit == db.agentBenefit + [Link(agentId, b)];
  }

  /** Removing an agent's benefits deletes exactly the WorkBenefits rows its
      links point to and all of its links, and no other agent's links. */
  lemma RemoveBenefitsClears(db: Db, agentId: int)
    ensures var r := RemoveBenefits(db, agentId);
      && !OwnsLink(r.agentBenefit, agentId)
      && (forall x :: x != agentId ==> CountOwned(r.agentBenefit, x) == CountOwned(db.agentBenefit, x))
      && (forall b :: b in r.benefits <==> b in db.benefits && b !in LinkedTargets(db.agentBenefit, agentId))
      && (forall b :: b in r.benefits ==> r.benefits[b] == db.benefits[b])
      && r == db.(benefits := r.benefits, agentBenefit := r.agentBenefit)
  {
    forall x {
      CountDropOwner(db.agentBenefit, agentId, x);
    }
  }

  /** After registering an agent or setting its experience, the agent has a
      benefit link exactly when its experience is at least 10; no other
      agent's links and no other table change. */
  lemma MaintainBenefitsRule(db: Db, agentId: int, experience: int)
    ensures var r := MaintainBenefits(db, agentId, experience);
      && (OwnsLink(r.agentBenefit, agentId) <==> experience >= BenefitThreshold)
      && (forall x :: x != agentId ==> CountOwned(r.agentBenefit, x) == CountOwned(db.agentBenefit, x))
      && r == db.(benefits := r.benefits, agentBenefit := r.agentBenefit, nextBenefit := r.nextBenefit)
  {
    var b := db.nextBenefit;
    forall x
      ensures CountOwned(db.agentBenefit + [Link(agentId, b)], x)
              == CountOwned(db.agentBenefit, x) + if x == agentId then 1 else 0
      ensures CountOwned(DropOwner(db.agentBenefit, agentId), x)
              == if x == agentId then 0 else CountOwned(db.agentBenefit, x)
    {
      CountOwnedSnoc(db.agentBenefit, Link(agentId, b), x);
      CountDropOwner(db.agentBenefit, agentId, x);
    }
  }

  /** Re-applying the same experience changes nothing. */
  lemma MaintainBenefitsIdempotent(db: Db, agentId: int, experience: int)
    ensures MaintainBenefits(MaintainBenefits(db, agentId, experience), agentId, experience)
         == MaintainBenefits(db, agentId, experience)
  {
    MaintainBenefitsRule(db, agentId, experience);
  }

  /** Benefits come in pairs: every AgentBenefit row points to a WorkBenefits
      row of the same agent, and every WorkBenefits row has its AgentBenefit
      row. */
  ghost predicate BenefitPaired(db: Db)
  {
    && (forall l :: l in db.agentBenefit ==> l.target in db.benefits && db.benefits[l.target].agentId == l.owner)
    && (forall b :: b in db.benefits ==> Link(db.benefits[b].agentId, b) in db.agentBenefit)
  }

  /** Provisioning adds a matching pair. */
  lemma AddBenefitsPaired(db: Db, agentId: int, salaryBonus: int, paidLeaveDays: int)
    requires Valid(db) && BenefitPaired(db)
    ensures BenefitPaired(AddBenefits(db, agentId, salaryBonus, paidLeaveDays))
  {
    var b := db.nextBenefit;
    forall l | l in db.agentBenefit ensures l.target != b {
      var i :| 0 <= i < |db.agentBenefit| && db.agentBenefit[i] == l;
    }
  }

  /** Removal deletes both halves of each of the agent's pairs and leaves
      other agents' pairs whole. */
  lemma RemoveBenefitsPaired(db: Db, agentId: int)
    requires BenefitPaired(db)
    ensures BenefitPaired(RemoveBenefits(db, agentId))
  {
    var r := RemoveBenefits(db, agentId);
    forall l | l in r.agentBenefit
      ensures l.target in r.benefits && r.benefits[l.target].agentId == l.owner
    {
      LinkedTargetsIff(db.agentBenefit, agentId, l.target);
      assert db.benefits[l.target].agentId == l.owner != agentId;
    }
    forall b | b in r.benefits ensures Link(r.benefits[b].agentId, b) in r.agentBenefit {
      LinkedTargetsIff(db.agentBenefit, agentId, b);
    }
  }

  /** The benefit rule keeps benefits paired. */
  lemma MaintainBenefitsPaired(db: Db, agentId: int, experience: int)
    requires Valid(db) && BenefitPaired(db)
    ensures BenefitPaired(MaintainBenefits(db, agentId, experience))
  {
    if experience >= BenefitThreshold {
      if !OwnsLink(db.agentBenefit, agentId) {
        AddBenefitsPaired(db, agentId, DefaultBonus, DefaultLeaveDays);
      }
    } else if OwnsLink(db.agentBenefit, agentId) {
      RemoveBenefitsPaired(db, agentId);
    }
  }

  /** Deleting an agent deletes both halves of its benefit pairs. */
  lemma CascadeDeleteAgentPaired(db: Db, agentId: int)
    requires BenefitPaired(db)
    ensures BenefitPaired(CascadeDeleteAgent(db, agentId))
  {
    RemoveBenefitsPaired(db, agentId);
  }

  /** The benefit ids the removal loop reads: one per link of the agent. */
  lemma {:induction false} TargetsOfCount(ls: seq<Link>, o: int)
    ensures |TargetsOf(ls, o)| == CountOwned(ls, o)
    decreases |ls|
  {
    if ls != [] {
      TargetsOfCount(ls[1..], o);
    }
  }

  /** The removal as a JDBC driver runs it when the first DELETE inside the
      benefit loop closes the loop's result set: only the first linked
      WorkBenefits row is deleted, then every AgentBenefit row of the agent. */
  function RemoveFirstBenefit(db: Db, agentId: int): Db
  {
    var ts := TargetsOf(db.agentBenefit, agentId);
    db.(benefits := if ts == [] then db.benefits else db.benefits - {ts[0]},
        agentBenefit := DropOwner(db.agentBenefit, agentId))
  }

  /** When the agent owns at most one benefit link, deleting the first linked
      benefit is deleting them all. */
  lemma RemoveFirstBenefitAgrees(db: Db, agentId: int)
    requires CountOwned(db.agentBenefit, agentId) <= 1
    ensures RemoveFirstBenefit(db, agentId) == RemoveBenefits(db, agentId)
  {
    var ts := TargetsOf(db.agentBenefit, agentId);
    TargetsOfCount(db.agentBenefit, agentId);
    if ts == [] {
      assert LinkedTargets(db.agentBenefit, agentId) == {};
    } else {
      assert ts == [ts[0]];
      assert LinkedTargets(db.agentBenefit, agentId) == {ts[0]};
    }
  }

  // ---------------------------------------------------------------------------
  // Salary links (agentHasSalary, addAgentSalaryLink,
  // removeAgentSalaryLinksForSalary)
  // ---------------------------------------------------------------------------

  /** Link an agent to a salary unless the agent already owns a salary link;
      the flag says whether the link was made. */
  function AddAgentSalaryLink(db: Db, agentId: int, salaryId: int): (r: (Db, bool))
  {
    if OwnsLink(db.agentSalary, agentId) then (db, false)
    else (db.(agentSalary := db.agentSalary + [Link(agentId, salaryId)]), true)
  }

  function RemoveAgentSalaryLinksForSalary(db: Db, salaryId: int): (r: Db)
    ensures Valid(db) ==> Valid(r)
  {
    db.(agentSalary := DropTarget(db.agentSalary, salaryId))
  }

  /** Every agent owns at most one AgentSalary row. */
  ghost predicate OneSalaryPerAgent(db: Db)
  {
    forall a :: CountOwned(db.agentSalary, a) <= 1
  }

  /** The link is made exactly when the agent owns no salary link; then it is
      the one new row, and afterwards the agent owns exactly one; otherwise
      nothing changes. Rows of other agents, to the same salary or not, stay,
      and at most one salary per agent is kept. */
  lemma AddAgentSalaryLinkRule(db: Db, agentId: int, salaryId: int)
    ensures var (r, linked) := AddAgentSalaryLink(db, agentId, salaryId);
      && (linked <==> CountOwned(db.agentSalary, agentId) == 0)
      && (!linked ==> r == db)
      && (linked ==> r == db.(agentSalary := db.agentSalary + [Link(agentId, salaryId)])
                     && CountOwned(r.agentSalary, agentId) == 1)
      && (forall l :: l in db.agentSalary ==> l in r.agentSalary)
      && (forall x :: x != agentId ==> CountOwned(r.agentSalary, x) == CountOwned(db.agentSalary, x))
      && (OneSalaryPerAgent(db) ==> OneSalaryPerAgent(r))
  {
    forall x
      ensures CountOwned(db.agentSalary + [Link(agentId, salaryId)], x)
              == CountOwned(db.agentSalary, x) + if x == agentId then 1 else 0
    {
      CountOwnedSnoc(db.agentSalary, Link(agentId, salaryId), x);
    }
  }

  /** Registration validity is kept by salary linking when the salary exists. */
  lemma AddAgentSalaryLinkValid(db: Db, agentId: int, salaryId: int)
    requires Valid(db) && salaryId < db.nextSalary
    ensures Valid(AddAgentSalaryLink(db, agentId, salaryId).0)
  {
  }

  /** One salary may be shared: two agents without a salary link can both be
      linked to the same salary. */
  lemma SalaryShared(db: Db, a1: int, a2: int, salaryId: int)
    requires a1 != a2
    requires !OwnsLink(db.agentSalary, a1) && !OwnsLink(db.agentSalary, a2)
    ensures var (r1, linked1) := AddAgentSalaryLink(db, a1, salaryId);
            var (r2, linked2) := AddAgentSalaryLink(r1, a2, salaryId);
      && linked1 && linked2
      && Link(a1, salaryId) in r2.agentSalary && Link(a2, salaryId) in r2.agentSalary
  {
    CountOwnedSnoc(db.agentSalary, Link(a1, salaryId), a2);
  }

  /** Deleting a salary's links removes every row pointing at it and keeps
      the one-salary-per-agent rule. */
  lemma RemoveSalaryLinksRule(db: Db, salaryId: int)
    ensures var r := RemoveAgentSalaryLinksForSalary(db, salaryId);
      && (forall l :: l in r.agentSalary <==> l in db.agentSalary && l.target != salaryId)
      && (OneSalaryPerAgent(db) ==> OneSalaryPerAgent(r))
  {
    forall x {
      CountDropTarget(db.agentSalary, salaryId, x);
    }
  }

  // ---------------------------------------------------------------------------
  // Customer snapshot refresh
  // ---------------------------------------------------------------------------

  /** Delete the customer's CustomerAgentBook rows and, if the customer row
      exists, insert one row with its current agent and book ids. */
  function RefreshSnapshot(db: Db, customerId: int): (r: Db)
    ensures Valid(db) ==> Valid(r)
  {
    var kept := DropCustomerRows(db.customerAgentBook, customerId);
    if customerId in db.customers then
      var c := db.customers[customerId];
      db.(customerAgentBook := kept + [Snapshot(customerId, c.agentId, c.bookId)])
    else
      db.(customerAgentBook := kept)
  }

  /** After a refresh an existing customer has exactly one snapshot row, and
      it carries the customer's current ids (0 included); a missing customer
      has none; other customers' rows are kept and nothing else changes. */
  lemma RefreshSnapshotExact(db: Db, customerId: int)
    ensures var r := RefreshSnapshot(db, customerId);
      && (customerId in db.customers ==>
            && CountRows(r.customerAgentBook, customerId) == 1
            && Snapshot(customerId, db.customers[customerId].agentId, db.customers[customerId].bookId)
                 in r.customerAgentBook
            && (forall s :: s in r.customerAgentBook && s.customerId == customerId ==>
                  s.agentId == db.customers[customerId].agentId && s.bookId == db.customers[customerId].bookId))
      && (customerId !in db.customers ==> CountRows(r.customerAgentBook, customerId) == 0)
      && (forall s :: s in r.customerAgentBook && s.customerId != customerId
                  <==> s in db.customerAgentBook && s.customerId != customerId)
      && r == db.(customerAgentBook := r.customerAgentBook)
  {
    var kept := DropCustomerRows(db.customerAgentBook, customerId);
    CountDropCustomerRows(db.customerAgentBook, customerId, customerId);
    CountRowsZero(kept, customerId);
    if customerId in db.customers {
      var c := db.customers[customerId];
      CountRowsSnoc(kept, Snapshot(customerId, c.agentId, c.bookId), customerId);
    }
  }

  // ---------------------------------------------------------------------------
  // Column updates (the UPDATE statement of the script's update command)
  // ---------------------------------------------------------------------------

  /** The five tables the update and purge commands address, by code 1..5. */
  datatype Table = Agents | Books | Authors | Customers | Salaries

  /** The non-key columns of each table. */
  predicate IsColumn(t: Table, column: string)
  {
    match t
    case Agents => column in ["Name", "PhoneNumber", "Experience"]
    case Books => column in ["AuthorID", "Name", "Cost"]
    case Authors => column in ["Name", "PhoneNumber", "HourlyCharge"]
    case Customers => column in ["AgentID", "BookID", "Name", "PhoneNumber"]
    case Salaries => column in ["Salary", "Experience"]
  }

  /** The columns whose new value the interpreter demands be digits. */
  predicate IsNumericColumn(t: Table, column: string)
  {
    match t
    case Agents => column == "Experience"
    case Books => column == "AuthorID" || column == "Cost"
    case Authors => column == "HourlyCharge"
    case Customers => column == "AgentID" || column == "BookID"
    case Salaries => column == "Salary" || column == "Experience"
  }

  function SetAgentColumn(a: Agent, column: string, value: string): Agent
  {
    if column == "Name" then a.(name := value)
    else if column == "PhoneNumber" then a.(phone := value)
    else a.(experience := DecimalValue(value))
  }

  function SetBookColumn(b: Book, column: string, value: string): Book
  {
    if column == "AuthorID" then b.(authorId := DecimalValue(value))
    else if column == "Name" then b.(name := value)
    else b.(cost := DecimalValue(value))
  }

  function SetAuthorColumn(a: Author, column: string, value: string): Author
  {
    if column == "Name" then a.(name := value)
    else if column == "PhoneNumber" then a.(phone := value)
    else a.(hourlyCharge := DecimalValue(value))
  }

  function SetCustomerColumn(c: Customer, column: string, value: string): Customer
  {
    if column == "AgentID" then c.(agentId := DecimalValue(value))
    else if column == "BookID" then c.(bookId := DecimalValue(value))
    else if column == "Name" then c.(name := value)
    else c.(phone := value)
  }

  function SetSalaryColumn(s: Salary, column: string, value: string): Salary
  {
    if column == "Salary" then s.(amount := DecimalValue(value))
    else s.(experience := DecimalValue(value))
  }

  /** UPDATE Agents SET column = value WHERE AgentID = id: only that row of
      that table changes, and a missing row is left alone. */
  function UpdateAgentRow(db: Db, id: int, column: string, value: string): (r: Db)
    ensures r == db.(agents := r.agents) && r.agents.Keys == db.agents.Keys
    ensures forall a :: a in r.agents && a != id ==> r.agents[a] == db.agents[a]
    ensures id in db.agents ==> r.agents[id] == SetAgentColumn(db.agents[id], column, value)
  {
    if id in db.agents then db.(agents := db.agents[id := SetAgentColumn(db.agents[id], column, value)]) else db
  }

  function UpdateBookRow(db: Db, id: int, column: string, value: string): (r: Db)
    ensures r == db.(books := r.books) && r.books.Keys == db.books.Keys
    ensures forall b :: b in r.books && b != id ==> r.books[b] == db.books[b]
    ensures id in db.books ==> r.books[id] == SetBookColumn(db.books[id], column, value)
  {
    if id in db.books then db.(books := db.books[id := SetBookColumn(db.books[id], column, value)]) else db
  }

  function UpdateAuthorRow(db: Db, id: int, column: string, value: string): (r: Db)
    ensures r == db.(authors := r.authors) && r.authors.Keys == db.authors.Keys
    ensures forall a :: a in r.authors && a != id ==> r.authors[a] == db.authors[a]
    ensures id in db.authors ==> r.authors[id] == SetAuthorColumn(db.authors[id], column, value)
  {
    if id in db.authors then db.(authors := db.authors[id := SetAuthorColumn(db.authors[id], column, value)]) else db
  }

  function UpdateCustomerRow(db: Db, id: int, column: string, value: string): (r: Db)
    ensures r == db.(customers := r.customers) && r.customers.Keys == db.customers.Keys
    ensures forall c :: c in r.customers && c != id ==> r.customers[c] == db.customers[c]
    ensures id in db.customers ==> r.customers[id] == SetCustomerColumn(db.customers[id], column, value)
  {
    if id in db.customers then db.(customers := db.customers[id := SetCustomerColumn(db.customers[id], column, value)]) else db
  }

  function UpdateSalaryRow(db: Db, id: int, column: string, value: string): (r: Db)
    ensures r == db.(salaries := r.salaries) && r.salaries.Keys == db.salaries.Keys
    ensures forall s :: s in r.salaries && s != id ==> r.salaries[s] == db.salaries[s]
    ensures id in db.salaries ==> r.salaries[id] == SetSalaryColumn(db.salaries[id], column, value)
  {
    if id in db.salaries then db.(salaries := db.salaries[id := SetSalaryColumn(db.salaries[id], column, value)]) else db
  }

  /** UPDATE t SET column = value WHERE id: rejected (None) for a column the
      table does not have. A numeric column receives the number the digits
      spell, a text column the value as given. */
  function SetColumn(db: Db, t: Table, id: int, column: string, value: string): (r: Option<Db>)
    ensures r.Some? <==> IsColumn(t, column)
  {
    if !IsColumn(t, column) then None
    else Some(
      match t
      case Agents => UpdateAgentRow(db, id, column, value)
      case Books => UpdateBookRow(db, id, column, value)
      case Authors => UpdateAuthorRow(db, id, column, value)
      case Customers => UpdateCustomerRow(db, id, column, value)
      case Salaries => UpdateSalaryRow(db, id, column, value))
  }

  /** An update keeps every table's key set and every link table, so it keeps
      validity; only an Agents update can change an experience, and only the
      addressed agent's, to the number the new value spells. */
  lemma SetColumnFrame(db: Db, t: Table, id: int, column: string, value: string)
    requires IsColumn(t, column)
    ensures var r := SetColumn(db, t, id, column, value).value;
      && (Valid(db) ==> Valid(r))
      && r.agents.Keys == db.agents.Keys && r.customers.Keys == db.customers.Keys
      && r.agentBenefit == db.agentBenefit && r.agentSalary == db.agentSalary
      && r.customerAgentBook == db.customerAgentBook && r.benefits == db.benefits
      && (forall a :: a in r.agents && (a != id || t != Agents || column != "Experience") ==>
            r.agents[a].experience == db.agents[a].experience)
      && (t == Agents && id in db.agents && column == "Experience" ==>
            r.agents[id].experience == DecimalValue(value))
  {
  }

  /** UPDATE Customers SET AgentID = 0 WHERE AgentID = a. */
  function ResetCustomerAgent(cs: map<int, Customer>, a: int): map<int, Customer>
  {
    map k | k in cs :: if cs[k].agentId == a then cs[k].(agentId := 0) else cs[k]
  }

  /** UPDATE Customers SET BookID = 0 WHERE BookID = b. */
  function ResetCustomerBook(cs: map<int, Customer>, b: int): map<int, Customer>
  {
    map k | k in cs :: if cs[k].bookId == b then cs[k].(bookId := 0) else cs[k]
  }

  /** UPDATE Books SET AuthorID = 0 WHERE AuthorID = a. */
  function ResetBookAuthor(bs: map<int, Book>, a: int): map<int, Book>
  {
    map k | k in bs :: if bs[k].authorId == a then bs[k].(authorId := 0) else bs[k]
  }

  function CascadeDeleteAgent(db: Db, agentId: int): (r: Db)
    ensures Valid(db) ==> Valid(r)
  {
    var d := RemoveBenefits(db, agentId);
    d.(agentSalary := DropOwner(d.agentSalary, agentId),
       customerAgentBook := DropAgentRows(d.customerAgentBook, agentId),
       customers := ResetCustomerAgent(d.customers, agentId),
       agents := d.agents - {agentId})
  }

  function CascadeDeleteBook(db: Db, bookId: int): (r: Db)
    ensures Valid(db) ==> Valid(r)
  {
    db.(bookAuthor := DropOwner(db.bookAuthor, bookId),
        customerAgentBook := DropBookRows(db.customerAgentBook, bookId),
        customers := ResetCustomerBook(db.customers, bookId),
        books := db.books - {bookId})
  }

  function CascadeDeleteAuthor(db: Db, authorId: int): (r: Db)
    ensures Valid(db) ==> Valid(r)
  {
    db.(bookAuthor := DropTarget(db.bookAuthor, authorId),
        books := ResetBookAuthor(db.books, authorId),
        authors := db.authors - {authorId})
  }

  function CascadeDeleteCustomer(db: Db, customerId: int): (r: Db)
    ensures Valid(db) ==> Valid(r)
  {
    db.(customerAgentBook := DropCustomerRows(db.customerAgentBook, customerId),
        customers := db.customers - {customerId})
  }

  function CascadeDeleteSalary(db: Db, salaryId: int): (r: Db)
    ensures Valid(db) ==> Valid(r)
  {
    RemoveAgentSalaryLinksForSalary(db, salaryId).(salaries := db.salaries - {salaryId})
  }

  /** Deleting an agent removes the agent, the WorkBenefits rows its links
      point to, and its AgentBenefit, AgentSalary and CustomerAgentBook rows;
      customers pointing to it survive with AgentID 0; nothing else changes. */
  lemma CascadeDeleteAgentEffect(db: Db, agentId: int)
    ensures var r := CascadeDeleteAgent(db, agentId);
      && r.agents == db.agents - {agentId}
      && (forall b :: b in r.benefits <==> b in db.benefits && b !in LinkedTargets(db.agentBenefit, agentId))
      && !OwnsLink(r.agentBenefit, agentId) && !OwnsLink(r.agentSalary, agentId)
      && (forall x :: x != agentId ==> CountOwned(r.agentBenefit, x) == CountOwned(db.agentBenefit, x))
      && (forall l :: l in r.agentBenefit <==> l in db.agentBenefit && l.owner != agentId)
      && (forall l :: l in r.agentSalary <==> l in db.agentSalary && l.owner != agentId)
      && (forall s :: s in r.customerAgentBook <==> s in db.customerAgentBook && s.agentId != agentId)
      && r.customers.Keys == db.customers.Keys
      && (forall c :: c in r.customers ==>
            r.customers[c] == if db.customers[c].agentId == agentId
                              then db.customers[c].(agentId := 0) else db.customers[c])
      && (forall b :: b in r.benefits ==> r.benefits[b] == db.benefits[b])
      && r == db.(agents := r.agents, benefits := r.benefits, agentBenefit := r.agentBenefit,
                  agentSalary := r.agentSalary, customerAgentBook := r.customerAgentBook,
                  customers := r.customers)
      && (OneSalaryPerAgent(db) ==> OneSalaryPerAgent(r))
  {
    RemoveBenefitsClears(db, agentId);
    forall x {
      CountDropOwner(db.agentSalary, agentId, x);
    }
  }

  /** Deleting a book removes it with its BookAuthor and CustomerAgentBook
      rows; customers owning it survive with BookID 0; nothing else changes. */
  lemma CascadeDeleteBookEffect(db: Db, bookId: int)
    ensures var r := CascadeDeleteBook(db, bookId);
      && r.books == db.books - {bookId}
      && !OwnsLink(r.bookAuthor, bookId)
      && (forall l :: l in r.bookAuthor <==> l in db.bookAuthor && l.owner != bookId)
      && (forall s :: s in r.customerAgentBook <==> s in db.customerAgentBook && s.bookId != bookId)
      && r.customers.Keys == db.customers.Keys
      && (forall c :: c in r.customers ==>
            r.customers[c] == if db.customers[c].bookId == bookId
                              then db.customers[c].(bookId := 0) else db.customers[c])
      && r == db.(books := r.books, bookAuthor := r.bookAuthor,
                  customerAgentBook := r.customerAgentBook, customers := r.customers)
  {
    CountDropOwner(db.bookAuthor, bookId, bookId);
  }

  /** Deleting an author removes it with its BookAuthor rows; its books
      survive with AuthorID 0; nothing else changes. */
  lemma CascadeDeleteAuthorEffect(db: Db, authorId: int)
    ensures var r := CascadeDeleteAuthor(db, authorId);
      && r.authors == db.authors - {authorId}
      && (forall l :: l in r.bookAuthor <==> l in db.bookAuthor && l.target != authorId)
      && r.books.Keys == db.books.Keys
      && (forall b :: b in r.books ==>
            r.books[b] == if db.books[b].authorId == authorId
                          then db.books[b].(authorId := 0) else db.books[b])
      && r == db.(authors := r.authors, bookAuthor := r.bookAuthor, books := r.books)
  {
  }

  /** Deleting a customer removes it and its CustomerAgentBook rows only. */
  lemma CascadeDeleteCustomerEffect(db: Db, customerId: int)
    ensures var r := CascadeDeleteCustomer(db, customerId);
      && r.customers == db.customers - {customerId}
      && CountRows(r.customerAgentBook, customerId) == 0
      && (forall s :: s in r.customerAgentBook <==> s in db.customerAgentBook && s.customerId != customerId)
      && r == db.(customers := r.customers, customerAgentBook := r.customerAgentBook)
  {
    CountDropCustomerRows(db.customerAgentBook, customerId, customerId);
  }

  /** Deleting a salary removes it and the AgentSalary rows pointing to it
      only. */
  lemma CascadeDeleteSalaryEffect(db: Db, salaryId: int)
    ensures var r := CascadeDeleteSalary(db, salaryId);
      && r.salaries == db.salaries - {salaryId}
      && (forall l :: l in r.agentSalary <==> l in db.agentSalary && l.target != salaryId)
      && r == db.(salaries := r.salaries, agentSalary := r.agentSalary)
      && (OneSalaryPerAgent(db) ==> OneSalaryPerAgent(r))
  {
    RemoveSalaryLinksRule(db, salaryId);
  }
}
