/** The script interpreter. A line is trimmed; a blank line or one starting
    with '#' is skipped; a line longer than four characters starting with
    "SQL|" is handed to the database as it is; any other line is split at
    '|' into trimmed fields and dispatched on its first field:
      0                              stop reading the script
      1|1|Name|Phone|Experience      register an agent
      1|2|Name|AuthorID|Cost         register a book
      1|3|Name|Phone|HourlyCharge    register an author
      1|4|AgentID|BookID|Name|Phone  register a customer
      1|5|Salary|Experience[|Agent]  register a salary
      2|table|id|column|value        update one column of one row
      3|table|id                     delete a row with its dependants
      4|table, 5|x, 6|x              display, compute, join (no change)
    Malformed and unknown lines are skipped. */
module Script {
  import opened Text
  import opened Tables
  import opened Store

  /** A decoded line. Numbers are kept as the digit strings of the line. */
  datatype Command =
    | Stop
    | Skip
    | Passthrough(sql: string)
    | RegisterAgent(name: string, phone: string, experience: string)
    | RegisterBook(name: string, authorId: string, cost: string)
    | RegisterAuthor(name: string, phone: string, hourlyCharge: string)
    | RegisterCustomer(agentId: string, bookId: string, name: string, phone: string)
    | RegisterSalary(amount: string, experience: string, linkedAgent: Option<string>)
    | Update(table: Table, id: string, column: string, value: string)
    | Purge(table: Table, id: string)
    | Display(code: string)
    | Compute(code: string)
    | Join(code: string)

  const DisplayCodes: seq<string> := ["1", "2", "3", "4", "5", "6"]

  // ---------------------------------------------------------------------------
  // Decoding
  // ---------------------------------------------------------------------------

  /** The table a table token names. */
  function TableOf(token: string): (r: Option<Table>)
  {
    if token == "1" then Some(Agents)
    else if token == "2" then Some(Books)
    else if token == "3" then Some(Authors)
    else if token == "4" then Some(Customers)
    else if token == "5" then Some(Salaries)
    else None
  }

  function TableCode(t: Table): (r: string)
    ensures TableOf(r) == Some(t)
  {
    match t
    case Agents => "1"
    case Books => "2"
    case Authors => "3"
    case Customers => "4"
    case Salaries => "5"
  }

  /** A table token names a table only when it is that table's code. */
  lemma TableTokenIff(token: string, t: Table)
    ensures TableOf(token) == Some(t) <==> token == TableCode(t)
  {
  }

  function DecodeRegister(tokens: seq<string>): (c: Command)
    requires |tokens| >= 1 && tokens[0] == "1"
    ensures c.Skip? || c.RegisterAgent? || c.RegisterBook? || c.RegisterAuthor?
         || c.RegisterCustomer? || c.RegisterSalary?
    ensures !c.Skip? ==> Encode(c) == tokens
  {
    if |tokens| < 2 then Skip
    else if tokens[1] == "1" then
      if |tokens| == 5 && IsDigits(tokens[4]) then RegisterAgent(tokens[2], tokens[3], tokens[4]) else Skip
    else if tokens[1] == "2" then
      if |tokens| == 5 && IsDigits(tokens[3]) && IsDigits(tokens[4])
      then RegisterBook(tokens[2], tokens[3], tokens[4]) else Skip
    else if tokens[1] == "3" then
      if |tokens| == 5 && IsDigits(tokens[4]) then RegisterAuthor(tokens[2], tokens[3], tokens[4]) else Skip
    else if tokens[1] == "4" then
      if |tokens| == 6 && IsDigits(tokens[2]) && IsDigits(tokens[3])
      then RegisterCustomer(tokens[2], tokens[3], tokens[4], tokens[5]) else Skip
    else if tokens[1] == "5" then
      if (|tokens| == 4 || |tokens| == 5) && IsDigits(tokens[2]) && IsDigits(tokens[3])
         && (|tokens| == 5 ==> IsDigits(tokens[4]))
      then RegisterSalary(tokens[2], tokens[3], if |tokens| == 5 then Some(tokens[4]) else None)
      else Skip
    else Skip
  }

  function DecodeUpdate(tokens: seq<string>): (c: Command)
    requires |tokens| >= 1 && tokens[0] == "2"
    ensures c.Skip? || c.Update?
    ensures !c.Skip? ==> Encode(c) == tokens
  {
    if |tokens| != 5 || !IsDigits(tokens[2]) then Skip
    else match TableOf(tokens[1])
      case None => Skip
      case Some(t) =>
        if IsNumericColumn(t, tokens[3]) && !IsDigits(tokens[4]) then Skip
        else Update(t, tokens[2], tokens[3], tokens[4])
  }

  function DecodePurge(tokens: seq<string>): (c: Command)
    requires |tokens| >= 1 && tokens[0] == "3"
    ensures c.Skip? || c.Purge?
    ensures !c.Skip? ==> Encode(c) == tokens
  {
    if |tokens| != 3 || !IsDigits(tokens[2]) then Skip
    else match TableOf(tokens[1])
      case None => Skip
      case Some(t) => Purge(t, tokens[2])
  }

  /** The command a list of fields stands for; `Skip` when it is malformed
      or unknown. Every other result re-encodes to exactly these fields,
      except that a stop ignores any fields after the "0". */
  function Decode(tokens: seq<string>): (c: Command)
    ensures !c.Passthrough?
    ensures c.Stop? <==> |tokens| >= 1 && tokens[0] == "0"
    ensures !c.Skip? && !c.Stop? ==> Encode(c) == tokens
  {
    if |tokens| == 0 then Skip
    else if tokens[0] == "0" then Stop
    else if tokens[0] == "1" then DecodeRegister(tokens)
    else if tokens[0] == "2" then DecodeUpdate(tokens)
    else if tokens[0] == "3" then DecodePurge(tokens)
    else if tokens[0] == "4" then
      if |tokens| == 2 && tokens[1] in DisplayCodes then Display(tokens[1]) else Skip
    else if tokens[0] == "5" then
      if |tokens| == 2 then Compute(tokens[1]) else Skip
    else if tokens[0] == "6" then
      if |tokens| == 2 then Join(tokens[1]) else Skip
    else Skip
  }

  /** What the interpreter makes of one raw line. */
  function Classify(line: string): Command
  {
    var trimmed := Trim(line);
    if |trimmed| == 0 || trimmed[0] == '#' then Skip
    else if |trimmed| > 4 && trimmed[..4] == "SQL|" then Passthrough(trimmed[4..])
    else Decode(SplitFields(trimmed))
  }

  // ---------------------------------------------------------------------------
  // Encoding: the line format, as the inverse of decoding
  // ---------------------------------------------------------------------------

  /** The fields of a command; a skip is written as a comment and a
      pass-through as its "SQL" prefix field and the statement. */
  function Encode(c: Command): (fields: seq<string>)
    ensures |fields| >= 1
  {
    match c
    case Stop => ["0"]
    case Skip => ["#"]
    case Passthrough(sql) => ["SQL", sql]
    case RegisterAgent(name, phone, experience) => ["1", "1", name, phone, experience]
    case RegisterBook(name, authorId, cost) => ["1", "2", name, authorId, cost]
    case RegisterAuthor(name, phone, hourlyCharge) => ["1", "3", name, phone, hourlyCharge]
    case RegisterCustomer(agentId, bookId, name, phone) => ["1", "4", agentId, bookId, name, phone]
    case RegisterSalary(amount, experience, None) => ["1", "5", amount, experience]
    case RegisterSalary(amount, experience, Some(agent)) => ["1", "5", amount, experience, agent]
    case Update(t, id, column, value) => ["2", TableCode(t), id, column, value]
    case Purge(t, id) => ["3", TableCode(t), id]
    case Display(code) => ["4", code]
    case Compute(code) => ["5", code]
    case Join(code) => ["6", code]
  }

  /** The line a command is written as. */
  function Line(c: Command): string
  {
    JoinPipe(Encode(c))
  }

  /** A text field that survives splitting: no '|' and no space at either
      end. */
  predicate IsField(s: string)
  {
    '|' !in s && Trim(s) == s
  }

  /** The commands a script line can express: every number is digits, every
      text is a field, and a pass-through statement is non-empty and does
      not end in a space. */
  predicate WellFormed(c: Command)
  {
    match c
    case Stop => true
    case Skip => true
    case Passthrough(sql) => |sql| > 0 && sql[|sql| - 1] != ' '
    case RegisterAgent(name, phone, experience) => IsField(name) && IsField(phone) && IsDigits(experience)
    case RegisterBook(name, authorId, cost) => IsField(name) && IsDigits(authorId) && IsDigits(cost)
    case RegisterAuthor(name, phone, hourlyCharge) => IsField(name) && IsField(phone) && IsDigits(hourlyCharge)
    case RegisterCustomer(agentId, bookId, name, phone) =>
      IsDigits(agentId) && IsDigits(bookId) && IsField(name) && IsField(phone)
    case RegisterSalary(amount, experience, agent) =>
      IsDigits(amount) && IsDigits(experience) && (agent.Some? ==> IsDigits(agent.value))
    case Update(t, id, column, value) =>
      IsDigits(id) && IsField(column) && IsField(value) && (IsNumericColumn(t, column) ==> IsDigits(value))
    case Purge(t, id) => IsDigits(id)
    case Display(code) => code in DisplayCodes
    case Compute(code) => IsField(code)
    case Join(code) => IsField(code)
  }

  lemma DigitsAreField(s: string)
    requires IsDigits(s)
    ensures IsField(s)
  {
    TrimNoEdgeSpaces(s);
  }

  /** Decoding the fields of a well-formed command gives it back. */
  lemma DecodeEncode(c: Command)
    requires WellFormed(c) && !c.Skip? && !c.Passthrough?
    ensures Decode(Encode(c)) == c
  {
    match c
    case Update(t, id, column, value) =>
      assert TableOf(TableCode(t)) == Some(t);
    case Purge(t, id) =>
      assert TableOf(TableCode(t)) == Some(t);
    case _ =>
  }

  /** Fields made of clean fields decode to a well-formed command. */
  lemma DecodeWellFormed(tokens: seq<string>)
    requires forall i :: 0 <= i < |tokens| ==> IsField(tokens[i])
    ensures WellFormed(Decode(tokens))
  {
  }

  /** The splitter yields only clean fields. */
  lemma SplitFieldsClean(s: string)
    ensures forall i :: 0 <= i < |SplitFields(s)| ==> IsField(SplitFields(s)[i])
  {
    SplitFieldsPlain(s);
  }

  /** Every raw line means a well-formed command: in particular a line whose
      numeric field is not all digits is skipped, and a pass-through statement
      is non-empty and does not end in a space. */
  lemma ClassifyWellFormed(line: string)
    ensures WellFormed(Classify(line))
  {
    var trimmed := Trim(line);
    TrimShape(line);
    if |trimmed| == 0 || trimmed[0] == '#' {
    } else if |trimmed| > 4 && trimmed[..4] == "SQL|" {
      assert trimmed[4..][|trimmed| - 5] == trimmed[|trimmed| - 1];
    } else {
      SplitFieldsClean(trimmed);
      DecodeWellFormed(SplitFields(trimmed));
    }
  }

  /** The fields of a command line are themselves clean fields. */
  lemma EncodeFields(c: Command)
    requires WellFormed(c) && !c.Skip? && !c.Passthrough?
    ensures forall i :: 0 <= i < |Encode(c)| ==> IsField(Encode(c)[i])
  {
    var fs := Encode(c);
    forall i | 0 <= i < |fs| ensures IsField(fs[i]) {
      if |fs[i]| == 1 && '0' <= fs[i][0] <= '9' {
        DigitsAreField(fs[i]);
      } else if IsDigits(fs[i]) {
        DigitsAreField(fs[i]);
      }
    }
  }

  /** Joined fields start with the first field's first character. */
  lemma {:induction false} JoinPipeHead(fields: seq<string>)
    requires |fields| >= 1 && |fields[0]| >= 1
    ensures |JoinPipe(fields)| >= 1 && JoinPipe(fields)[0] == fields[0][0]
  {
  }

  /** A line of clean fields whose first field is not blank trims to
      itself. */
  lemma LineTrimmed(fields: seq<string>)
    requires |fields| >= 1 && |fields[0]| >= 1
    requires forall i :: 0 <= i < |fields| ==> IsField(fields[i])
    ensures Trim(JoinPipe(fields)) == JoinPipe(fields)
  {
    var s := JoinPipe(fields);
    JoinPipeHead(fields);
    TrimShape(fields[0]);
    var n := |fields|;
    var last := fields[n - 1];
    TrimShape(last);
    if n == 1 {
      assert s == fields[0];
    } else {
      JoinPipeSnoc(fields[..n - 1], last);
      assert fields[..n - 1] + [last] == fields;
      assert s == JoinPipe(fields[..n - 1]) + "|" + last;
      if last == [] {
        assert s[|s| - 1] == '|';
      } else {
        assert s[|s| - 1] == last[|last| - 1];
      }
    }
    TrimNoEdgeSpaces(s);
  }

  lemma PassthroughLine(sql: string)
    ensures Line(Passthrough(sql)) == "SQL|" + sql
  {
    var fs := ["SQL", sql];
    assert Encode(Passthrough(sql)) == fs;
    assert fs[1..] == [sql];
    assert JoinPipe(fs[1..]) == sql;
    assert JoinPipe(fs) == "SQL" + "|" + sql;
  }

  /** The first field of a command line is its one-digit command code. */
  lemma EncodeHead(c: Command)
    requires !c.Skip? && !c.Passthrough?
    ensures |Encode(c)[0]| == 1 && '0' <= Encode(c)[0][0] <= '6'
  {
  }

  /** A line whose trim is itself and which starts with a digit is split
      into fields and decoded. */
  lemma ClassifyDigitLine(line: string)
    requires Trim(line) == line && |line| >= 1 && '0' <= line[0] <= '9'
    ensures Classify(line) == Decode(SplitFields(line))
  {
    assert |line| > 4 ==> line[..4][0] == line[0];
  }

  /** The lines of commands other than skip and pass-through. */
  lemma FieldLineRoundTrip(c: Command)
    requires WellFormed(c) && !c.Skip? && !c.Passthrough?
    ensures Classify(Line(c)) == c
  {
    var fs := Encode(c);
    EncodeFields(c);
    EncodeHead(c);
    LineTrimmed(fs);
    JoinPipeHead(fs);
    ClassifyDigitLine(JoinPipe(fs));
    SplitJoin(fs);
    DecodeEncode(c);
  }

  /** Writing a well-formed command as a line and reading the line back gives
      the command. */
  lemma LineRoundTrip(c: Command)
    requires WellFormed(c)
    ensures Classify(Line(c)) == c
  {
    match c
    case Skip =>
      assert Line(c) == "#";
      TrimNoEdgeSpaces("#");
    case Passthrough(sql) =>
      var line := "SQL|" + sql;
      PassthroughLine(sql);
      TrimNoEdgeSpaces(line);
      assert line[..4] == "SQL|" && line[4..] == sql;
    case _ =>
      FieldLineRoundTrip(c);
  }

  // ---------------------------------------------------------------------------
  // Effect of one command on the tables
  // ---------------------------------------------------------------------------

  /** Whether the row an UPDATE addresses exists, i.e. the update changed one
      row rather than none. */
  predicate RowExists(db: Db, t: Table, id: int)
  {
    match t
    case Agents => id in db.agents
    case Books => id in db.books
    case Authors => id in db.authors
    case Customers => id in db.customers
    case Salaries => id in db.salaries
  }

  /** The follow-up work after an accepted update: a customer's agent or
      book change refreshes its snapshot row, an agent's experience change
      re-applies the benefit rule. */
  function AfterUpdate(db: Db, t: Table, id: int, column: string, value: string): Db
  {
    if t == Customers && (column == "AgentID" || column == "BookID") then RefreshSnapshot(db, id)
    else if t == Agents && column == "Experience" then MaintainBenefits(db, id, DecimalValue(value))
    else db
  }

  function PurgeRow(db: Db, t: Table, id: int): Db
  {
    match t
    case Agents => CascadeDeleteAgent(db, id)
    case Books => CascadeDeleteBook(db, id)
    case Authors => CascadeDeleteAuthor(db, id)
    case Customers => CascadeDeleteCustomer(db, id)
    case Salaries => CascadeDeleteSalary(db, id)
  }

  function RegisterAgentEffect(db: Db, name: string, phone: string, experience: string): Db
  {
    var years := DecimalValue(experience);
    var (d, agentId) := InsertAgent(db, Agent(StoredText(name), StoredText(phone), years));
    if years >= BenefitThreshold then AddBenefits(d, agentId, DefaultBonus, DefaultLeaveDays) else d
  }

  function RegisterBookEffect(db: Db, name: string, authorId: string, cost: string): Db
  {
    var author := DecimalValue(authorId);
    var (d, bookId) := InsertBook(db, Book(author, StoredText(name), DecimalValue(cost)));
    if author != 0 then LinkBookAuthor(d, bookId, author) else d
  }

  function RegisterCustomerEffect(db: Db, agentId: string, bookId: string, name: string, phone: string): Db
  {
    var agent := DecimalValue(agentId);
    var book := DecimalValue(bookId);
    var (d, customerId) := InsertCustomer(db, Customer(agent, book, StoredText(name), StoredText(phone)));
    AddSnapshot(d, customerId, agent, book)
  }

  function RegisterSalaryEffect(db: Db, amount: string, experience: string, linkedAgent: Option<string>): Db
  {
    var agent := if linkedAgent.Some? then DecimalValue(linkedAgent.value) else 0;
    var (d, salaryId) := InsertSalary(db, Salary(DecimalValue(amount), DecimalValue(experience)));
    if agent != 0 then AddAgentSalaryLink(d, agent, salaryId).0 else d
  }

  /** An accepted update, with its follow-up done only when a row changed;
      a rejected update changes nothing. */
  function UpdateEffect(db: Db, t: Table, rowId: int, column: string, value: string): Db
  {
    match SetColumn(db, t, rowId, column, value)
    case None => db
    case Some(d) => if RowExists(db, t, rowId) then AfterUpdate(d, t, rowId, column, value) else d
  }

  /** The interpreter's effect on the tables. */
  function Apply(db: Db, c: Command): Db
  {
    match c
    case RegisterAgent(name, phone, experience) => RegisterAgentEffect(db, name, phone, experience)
    case RegisterBook(name, authorId, cost) => RegisterBookEffect(db, name, authorId, cost)
    case RegisterAuthor(name, phone, hourlyCharge) =>
      InsertAuthor(db, Author(StoredText(name), StoredText(phone), DecimalValue(hourlyCharge))).0
    case RegisterCustomer(agentId, bookId, name, phone) => RegisterCustomerEffect(db, agentId, bookId, name, phone)
    case RegisterSalary(amount, experience, linkedAgent) => RegisterSalaryEffect(db, amount, experience, linkedAgent)
    case Update(t, id, column, value) => UpdateEffect(db, t, DecimalValue(id), column, value)
    case Purge(t, id) => PurgeRow(db, t, DecimalValue(id))
    case _ => db
  }

  /** The effect as the interpreter is written: the follow-up of an accepted
      update runs whether or not a row was changed. */
  function ApplyAsWritten(db: Db, c: Command): Db
  {
    match c
    case Update(t, id, column, value) =>
      var rowId := DecimalValue(id);
      (match SetColumn(db, t, rowId, column, value)
       case None => db
       case Some(d) => AfterUpdate(d, t, rowId, column, value))
    case _ => Apply(db, c)
  }

  /** The two differ only on an update of a missing row. */
  lemma ApplyAgreesOnExistingRows(db: Db, c: Command)
    requires !c.Update? || !IsColumn(c.table, c.column) || RowExists(db, c.table, DecimalValue(c.id))
    ensures Apply(db, c) == ApplyAsWritten(db, c)
  {
  }

  /** The tables after the lines of a script, up to the first stop. */
  function Run(db: Db, lines: seq<string>): Db
    decreases |lines|
  {
    if lines == [] then db
    else
      var c := Classify(lines[0]);
      if c == Stop then db else Run(Apply(db, c), lines[1..])
  }

  // ---------------------------------------------------------------------------
  // Invariants kept by every command and every script
  // ---------------------------------------------------------------------------

  /** Benefit links belong to existing agents; an agent has a benefit link
      exactly when its experience is at least 10, and never two; each link
      and its WorkBenefits row come as a pair. */
  ghost predicate BenefitInv(db: Db)
  {
    && BenefitPaired(db)
    && (forall l :: l in db.agentBenefit ==> l.owner in db.agents)
    && (forall a :: a in db.agents ==> (OwnsLink(db.agentBenefit, a) <==> db.agents[a].experience >= BenefitThreshold))
    && (forall a :: CountOwned(db.agentBenefit, a) <= 1)
  }

  ghost predicate Consistent(db: Db)
  {
    Valid(db) && OneSalaryPerAgent(db) && BenefitInv(db)
  }

  lemma EmptyConsistent()
    ensures Consistent(EmptyDb())
  {
  }

  /** An id no agent has owns no benefit link. */
  lemma NoLinksForMissingAgent(db: Db, a: int)
    requires forall l :: l in db.agentBenefit ==> l.owner in db.agents
    requires a !in db.agents
    ensures CountOwned(db.agentBenefit, a) == 0
  {
    OwnsLinkIff(db.agentBenefit, a);
  }

  /** The benefit invariant reads only the agents, the benefits and their
      links. */
  lemma BenefitInvFrame(db: Db, r: Db)
    requires BenefitInv(db)
    requires r.agents == db.agents && r.benefits == db.benefits && r.agentBenefit == db.agentBenefit
    ensures BenefitInv(r)
  {
  }

  /** Registering an agent is the benefit rule applied to a fresh agent
      that owns no link yet. */
  lemma RegisterAgentKeeps(db: Db, name: string, phone: string, experience: string)
    requires Consistent(db)
    ensures Consistent(RegisterAgentEffect(db, name, phone, experience))
  {
    var years := DecimalValue(experience);
    var (d, agentId) := InsertAgent(db, Agent(StoredText(name), StoredText(phone), years));
    NoLinksForMissingAgent(db, agentId);
    assert RegisterAgentEffect(db, name, phone, experience) == MaintainBenefits(d, agentId, years);
    MaintainRestores(d, agentId, years);
  }

  lemma RegisterSalaryKeeps(db: Db, amount: string, experience: string, linkedAgent: Option<string>)
    requires Consistent(db)
    ensures Consistent(RegisterSalaryEffect(db, amount, experience, linkedAgent))
  {
    var agent := if linkedAgent.Some? then DecimalValue(linkedAgent.value) else 0;
    var (d, salaryId) := InsertSalary(db, Salary(DecimalValue(amount), DecimalValue(experience)));
    AddAgentSalaryLinkRule(d, agent, salaryId);
    AddAgentSalaryLinkValid(d, agent, salaryId);
    BenefitInvFrame(db, RegisterSalaryEffect(db, amount, experience, linkedAgent));
  }

  /** Writing a column keeps consistency unless it is the experience of an
      existing agent, whose benefit rule is restored afterwards. */
  lemma SetColumnKeeps(db: Db, t: Table, rowId: int, column: string, value: string)
    requires Consistent(db) && IsColumn(t, column)
    requires !(t == Agents && column == "Experience" && rowId in db.agents)
    ensures Consistent(SetColumn(db, t, rowId, column, value).value)
  {
    SetColumnFrame(db, t, rowId, column, value);
  }

  /** The benefit rule, applied to the one agent whose experience may break
      it, restores consistency. */
  lemma MaintainRestores(d: Db, id: int, years: int)
    requires Valid(d) && OneSalaryPerAgent(d)
    requires forall l :: l in d.agentBenefit ==> l.owner in d.agents
    requires id in d.agents && d.agents[id].experience == years
    requires forall a :: a in d.agents && a != id ==>
      (OwnsLink(d.agentBenefit, a) <==> d.agents[a].experience >= BenefitThreshold)
    requires forall a :: CountOwned(d.agentBenefit, a) <= 1
    requires BenefitPaired(d)
    ensures Consistent(MaintainBenefits(d, id, years))
  {
    var r := MaintainBenefits(d, id, years);
    MaintainBenefitsRule(d, id, years);
    MaintainBenefitsPaired(d, id, years);
    if years >= BenefitThreshold && !OwnsLink(d.agentBenefit, id) {
      AddBenefitsProvisions(d, id, DefaultBonus, DefaultLeaveDays);
    } else if years < BenefitThreshold && OwnsLink(d.agentBenefit, id) {
      RemoveBenefitsClears(d, id);
      assert forall l :: l in r.agentBenefit ==> l in d.agentBenefit;
    }
  }

  /** Setting an agent's experience and then applying the benefit rule keeps
      consistency. */
  lemma MaintainKeeps(db: Db, d: Db, id: int, years: int)
    requires Consistent(db) && Valid(d) && OneSalaryPerAgent(d)
    requires id in db.agents && d.agents.Keys == db.agents.Keys
    requires d.agentBenefit == db.agentBenefit && d.benefits == db.benefits
    requires forall a :: a in d.agents && a != id ==> d.agents[a].experience == db.agents[a].experience
    requires d.agents[id].experience == years
    ensures Consistent(MaintainBenefits(d, id, years))
  {
    MaintainRestores(d, id, years);
  }

  lemma RefreshKeeps(d: Db, id: int)
    requires Consistent(d)
    ensures Consistent(RefreshSnapshot(d, id))
  {
    RefreshSnapshotExact(d, id);
  }

  lemma RegisterBookKeeps(db: Db, name: string, authorId: string, cost: string)
    requires Consistent(db)
    ensures Consistent(RegisterBookEffect(db, name, authorId, cost))
  {
    BenefitInvFrame(db, RegisterBookEffect(db, name, authorId, cost));
  }

  lemma RegisterCustomerKeeps(db: Db, agentId: string, bookId: string, name: string, phone: string)
    requires Consistent(db)
    ensures Consistent(RegisterCustomerEffect(db, agentId, bookId, name, phone))
  {
    BenefitInvFrame(db, RegisterCustomerEffect(db, agentId, bookId, name, phone));
  }

  lemma RegisterAuthorKeeps(db: Db, row: Author)
    requires Consistent(db)
    ensures Consistent(InsertAuthor(db, row).0)
  {
  }

  lemma UpdateKeeps(db: Db, t: Table, rowId: int, column: string, value: string)
    requires Consistent(db)
    ensures Consistent(UpdateEffect(db, t, rowId, column, value))
  {
    if IsColumn(t, column) {
      var d := SetColumn(db, t, rowId, column, value).value;
      if t == Agents && column == "Experience" && rowId in db.agents {
        SetColumnFrame(db, t, rowId, column, value);
        MaintainKeeps(db, d, rowId, DecimalValue(value));
      } else {
        SetColumnKeeps(db, t, rowId, column, value);
        if RowExists(db, t, rowId) && t == Customers && (column == "AgentID" || column == "BookID") {
          RefreshKeeps(d, rowId);
        }
      }
    }
  }

  lemma PurgeKeeps(db: Db, t: Table, id: int)
    requires Consistent(db)
    ensures Consistent(PurgeRow(db, t, id))
  {
    match t
    case Agents => CascadeDeleteAgentEffect(db, id); CascadeDeleteAgentPaired(db, id);
    case Books => CascadeDeleteBookEffect(db, id); BenefitInvFrame(db, CascadeDeleteBook(db, id));
    case Authors => CascadeDeleteAuthorEffect(db, id); BenefitInvFrame(db, CascadeDeleteAuthor(db, id));
    case Customers => CascadeDeleteCustomerEffect(db, id); BenefitInvFrame(db, CascadeDeleteCustomer(db, id));
    case Salaries => CascadeDeleteSalaryEffect(db, id); BenefitInvFrame(db, CascadeDeleteSalary(db, id));
  }

  /** Every command keeps the tables consistent. */
  lemma ApplyKeeps(db: Db, c: Command)
    requires Consistent(db)
    ensures Consistent(Apply(db, c))
  {
    match c
    case RegisterAgent(name, phone, experience) => RegisterAgentKeeps(db, name, phone, experience);
    case RegisterSalary(amount, experience, linkedAgent) => RegisterSalaryKeeps(db, amount, experience, linkedAgent);
    case Update(t, id, column, value) => UpdateKeeps(db, t, DecimalValue(id), column, value);
    case Purge(t, id) => PurgeKeeps(db, t, DecimalValue(id));
    case RegisterBook(name, authorId, cost) => RegisterBookKeeps(db, name, authorId, cost);
    case RegisterCustomer(agentId, bookId, name, phone) => RegisterCustomerKeeps(db, agentId, bookId, name, phone);
    case RegisterAuthor(name, phone, hourlyCharge) =>
      RegisterAuthorKeeps(db, Author(StoredText(name), StoredText(phone), DecimalValue(hourlyCharge)));
    case _ =>
  }

  /** Every script keeps the tables consistent. */
  lemma {:induction false} RunKeeps(db: Db, lines: seq<string>)
    requires Consistent(db)
    ensures Consistent(Run(db, lines))
    decreases |lines|
  {
    if lines != [] && Classify(lines[0]) != Stop {
      ApplyKeeps(db, Classify(lines[0]));
      RunKeeps(Apply(db, Classify(lines[0])), lines[1..]);
    }
  }

  /** Nothing after a stop line is read. */
  lemma {:induction false} StopIgnoresRest(db: Db, before: seq<string>, stop: string, after: seq<string>)
    requires Classify(stop) == Stop
    ensures Run(db, before + [stop] + after) == Run(db, before + [stop])
    decreases |before|
  {
    if before == [] {
      assert (before + [stop] + after)[0] == stop;
      assert (before + [stop])[0] == stop;
    } else {
      assert (before + [stop] + after)[1..] == before[1..] + [stop] + after;
      assert (before + [stop])[1..] == before[1..] + [stop];
      var c := Classify(before[0]);
      if c != Stop {
        StopIgnoresRest(Apply(db, c), before[1..], stop, after);
      }
    }
  }

  // ---------------------------------------------------------------------------
  // What single commands promise
  // ---------------------------------------------------------------------------

  /** A registered agent is a new row with the given data, and it has a
      benefit link exactly when its experience is at least 10 (with the
      default bonus and leave). */
  lemma RegisterAgentRule(db: Db, name: string, phone: string, experience: string)
    requires Valid(db) && forall l :: l in db.agentBenefit ==> l.owner in db.agents
    ensures var r := Apply(db, RegisterAgent(name, phone, experience));
      && r.agents.Keys == db.agents.Keys + {db.nextAgent} && db.nextAgent !in db.agents
      && r.agents[db.nextAgent] == Agent(StoredText(name), StoredText(phone), DecimalValue(experience))
      && (OwnsLink(r.agentBenefit, db.nextAgent) <==> DecimalValue(experience) >= BenefitThreshold)
      && (DecimalValue(experience) >= BenefitThreshold ==>
            exists b :: Link(db.nextAgent, b) in r.agentBenefit && b in r.benefits
                     && r.benefits[b] == WorkBenefit(db.nextAgent, DefaultBonus, DefaultLeaveDays))
  {
    var years := DecimalValue(experience);
    var (d, agentId) := InsertAgent(db, Agent(StoredText(name), StoredText(phone), years));
    NoLinksForMissingAgent(db, agentId);
    var r := MaintainBenefits(d, agentId, years);
    assert Apply(db, RegisterAgent(name, phone, experience)) == r;
    MaintainBenefitsRule(d, agentId, years);
    if years >= BenefitThreshold {
      var b := d.nextBenefit;
      assert r == AddBenefits(d, agentId, DefaultBonus, DefaultLeaveDays);
      assert Link(agentId, b) in r.agentBenefit;
    }
  }

  /** A book registered with author 0 gets no BookAuthor row; with another
      author id it gets exactly the row (book, author). */
  lemma RegisterBookRule(db: Db, name: string, authorId: string, cost: string)
    requires Valid(db)
    ensures var r := Apply(db, RegisterBook(name, authorId, cost));
      && db.nextBook in r.books && r.books[db.nextBook] == Book(DecimalValue(authorId), StoredText(name), DecimalValue(cost))
      && (forall l :: l in r.bookAuthor && l.owner == db.nextBook ==> l.target == DecimalValue(authorId))
      && (OwnsLink(r.bookAuthor, db.nextBook) <==> DecimalValue(authorId) != 0)
  {
    OwnsLinkIff(db.bookAuthor, db.nextBook);
    var r := Apply(db, RegisterBook(name, authorId, cost));
    OwnsLinkIff(r.bookAuthor, db.nextBook);
    if DecimalValue(authorId) != 0 {
      assert Link(db.nextBook, DecimalValue(authorId)) in r.bookAuthor;
    }
  }

  /** A registered customer gets exactly one snapshot row, with the agent
      and book it was registered with. */
  lemma RegisterCustomerRule(db: Db, agentId: string, bookId: string, name: string, phone: string)
    requires Valid(db)
    ensures var r := Apply(db, RegisterCustomer(agentId, bookId, name, phone));
      && CountRows(r.customerAgentBook, db.nextCustomer) == 1
      && Snapshot(db.nextCustomer, DecimalValue(agentId), DecimalValue(bookId)) in r.customerAgentBook
  {
    CountRowsZero(db.customerAgentBook, db.nextCustomer);
  }

  /** A registered salary is stored whatever becomes of its link. The link to
      the named agent is the one new AgentSalary row exactly when an agent is
      named (not 0) that owns no salary link yet; otherwise the AgentSalary
      rows stay as they were. No agent or benefit changes. */
  lemma RegisterSalaryRule(db: Db, amount: string, experience: string, linkedAgent: Option<string>)
    ensures var r := Apply(db, RegisterSalary(amount, experience, linkedAgent));
            var agent := if linkedAgent.Some? then DecimalValue(linkedAgent.value) else 0;
      && r.salaries == db.salaries[db.nextSalary := Salary(DecimalValue(amount), DecimalValue(experience))]
      && (agent != 0 && CountOwned(db.agentSalary, agent) == 0 ==>
            r.agentSalary == db.agentSalary + [Link(agent, db.nextSalary)])
      && (agent == 0 || CountOwned(db.agentSalary, agent) > 0 ==> r.agentSalary == db.agentSalary)
      && r.agents == db.agents && r.benefits == db.benefits && r.agentBenefit == db.agentBenefit
  {
    var agent := if linkedAgent.Some? then DecimalValue(linkedAgent.value) else 0;
    var (d, salaryId) := InsertSalary(db, Salary(DecimalValue(amount), DecimalValue(experience)));
    AddAgentSalaryLinkRule(d, agent, salaryId);
  }

  /** Updating a customer's agent or book leaves it with exactly one snapshot
      row, carrying its new ids. */
  lemma UpdateCustomerRule(db: Db, id: string, column: string, value: string)
    requires column == "AgentID" || column == "BookID"
    requires IsDigits(value) && DecimalValue(id) in db.customers
    ensures var r := Apply(db, Update(Customers, id, column, value));
            var c := r.customers[DecimalValue(id)];
      && CountRows(r.customerAgentBook, DecimalValue(id)) == 1
      && Snapshot(DecimalValue(id), c.agentId, c.bookId) in r.customerAgentBook
      && (column == "AgentID" ==> c.agentId == DecimalValue(value))
      && (column == "BookID" ==> c.bookId == DecimalValue(value))
  {
    var rowId := DecimalValue(id);
    var d := UpdateCustomerRow(db, rowId, column, value);
    assert SetColumn(db, Customers, rowId, column, value) == Some(d);
    assert RowExists(db, Customers, rowId);
    assert Apply(db, Update(Customers, id, column, value)) == RefreshSnapshot(d, rowId);
    RefreshSnapshotExact(d, rowId);
  }

  // ---------------------------------------------------------------------------
  // The orphan benefit link of the interpreter as written
  // ---------------------------------------------------------------------------

  lemma SmallNumbers()
    ensures DecimalValue("1") == 1 && DecimalValue("3") == 3 && DecimalValue("12") == 12
  {
    assert DecimalValue("1") == DecimalValue("") * 10 + DigitValue('1');
    assert DecimalValue("3") == DecimalValue("") * 10 + DigitValue('3');
    assert "12"[..1] == "1";
    assert DecimalValue("12") == DecimalValue("1") * 10 + DigitValue('2');
  }

  /** Raising the experience of agent 1 in the empty tables, as written:
      no agent row changes, but agent 1 is given a benefit. */
  lemma OrphanUpdateAsWritten()
    ensures var d1 := ApplyAsWritten(EmptyDb(), Update(Agents, "1", "Experience", "12"));
      && d1.agents == map[] && d1.nextAgent == 1
      && d1.agentBenefit == [Link(1, 1)]
  {
    SmallNumbers();
    var e := EmptyDb();
    assert SetColumn(e, Agents, 1, "Experience", "12") == Some(e);
    assert !OwnsLink(e.agentBenefit, 1);
    assert MaintainBenefits(e, 1, 12) == AddBenefits(e, 1, DefaultBonus, DefaultLeaveDays);
  }

  /** As written: raising the experience of agent 1 before any agent exists
      creates a benefit link for the missing agent 1; the agent registered
      next gets id 1 and, with 3 years of experience, holds that benefit. */
  lemma OrphanBenefitAsWritten()
    ensures var d1 := ApplyAsWritten(EmptyDb(), Update(Agents, "1", "Experience", "12"));
            var d2 := ApplyAsWritten(d1, RegisterAgent("Ann", "555-0100", "3"));
      && d1.agents == map[]
      && OwnsLink(d1.agentBenefit, 1)
      && 1 in d2.agents && d2.agents[1].experience == 3
      && OwnsLink(d2.agentBenefit, 1)
      && !BenefitInv(d2)
  {
    SmallNumbers();
    OrphanUpdateAsWritten();
    var d1 := ApplyAsWritten(EmptyDb(), Update(Agents, "1", "Experience", "12"));
    assert CountOwned(d1.agentBenefit, 1) == 1;
    assert !IsDigits("555-0100") by {
      assert "555-0100"[3] == '-';
    }
    var row := Agent(StoredText("Ann"), StoredText("555-0100"), 3);
    var d2 := ApplyAsWritten(d1, RegisterAgent("Ann", "555-0100", "3"));
    assert d2 == InsertAgent(d1, row).0;
    assert d2.agentBenefit == d1.agentBenefit;
    assert d2.agents[1] == row;
  }

  /** Corrected: raising the experience of a missing agent changes nothing. */
  lemma OrphanUpdateCorrected()
    ensures Apply(EmptyDb(), Update(Agents, "1", "Experience", "12")) == EmptyDb()
  {
    SmallNumbers();
    var e := EmptyDb();
    assert SetColumn(e, Agents, 1, "Experience", "12") == Some(e);
    assert !RowExists(e, Agents, 1);
  }

  /** Corrected: the same two commands leave agent 1 without a benefit. */
  lemma OrphanBenefitCorrected()
    ensures var d1 := Apply(EmptyDb(), Update(Agents, "1", "Experience", "12"));
            var d2 := Apply(d1, RegisterAgent("Ann", "555-0100", "3"));
      && d1 == EmptyDb()
      && 1 in d2.agents && d2.agents[1].experience == 3
      && !OwnsLink(d2.agentBenefit, 1)
      && BenefitInv(d2)
  {
    OrphanUpdateCorrected();
    SmallNumbers();
    var e := EmptyDb();
    assert e.nextAgent == 1;
    EmptyConsistent();
    RegisterAgentRule(e, "Ann", "555-0100", "3");
    RegisterAgentKeeps(e, "Ann", "555-0100", "3");
  }

  // ---------------------------------------------------------------------------
  // The interpreter over the store
  // ---------------------------------------------------------------------------

  method ExecRegisterAgent(store: Store, name: string, phone: string, experience: string)
    modifies store
    ensures store.State() == RegisterAgentEffect(old(store.State()), name, phone, experience)
  {
    var experienceYears := StringToInt(experience);
    var newAgentId := store.InsertAgent(Agent(StoredText(name), StoredText(phone), experienceYears));
    if experienceYears >= BenefitThreshold {
      store.AddBenefitsToAgent(newAgentId, DefaultBonus, DefaultLeaveDays);
    }
  }

  method ExecRegisterBook(store: Store, name: string, authorId: string, cost: string)
    modifies store
    ensures store.State() == RegisterBookEffect(old(store.State()), name, authorId, cost)
  {
    var author := StringToInt(authorId);
    var bookCost := StringToInt(cost);
    var newBookId := store.InsertBook(Book(author, StoredText(name), bookCost));
    if author != 0 {
      store.InsertBookAuthor(newBookId, author);
    }
  }

  method ExecRegisterAuthor(store: Store, name: string, phone: string, hourlyCharge: string)
    modifies store
    ensures store.State() == InsertAuthor(old(store.State()), Author(StoredText(name), StoredText(phone), DecimalValue(hourlyCharge))).0
  {
    var charge := StringToInt(hourlyCharge);
    var _ := store.InsertAuthor(Author(StoredText(name), StoredText(phone), charge));
  }

  method ExecRegisterCustomer(store: Store, agentId: string, bookId: string, name: string, phone: string)
    modifies store
    ensures store.State() == RegisterCustomerEffect(old(store.State()), agentId, bookId, name, phone)
  {
    var agent := StringToInt(agentId);
    var book := StringToInt(bookId);
    var newCustomerId := store.InsertCustomer(Customer(agent, book, StoredText(name), StoredText(phone)));
    store.InsertSnapshot(newCustomerId, agent, book);
  }

  method ExecRegisterSalary(store: Store, amount: string, experience: string, linkedAgent: Option<string>)
    modifies store
    ensures store.State() == RegisterSalaryEffect(old(store.State()), amount, experience, linkedAgent)
  {
    var salaryAmount := StringToInt(amount);
    var years := StringToInt(experience);
    var agent := 0;
    if linkedAgent.Some? {
      agent := StringToInt(linkedAgent.value);
    }
    var newSalaryId := store.InsertSalary(Salary(salaryAmount, years));
    if agent != 0 {
      var _ := store.AddAgentSalaryLink(agent, newSalaryId);
    }
  }

  /** The benefit rule for one agent, as the update handler performs it. */
  method ExecMaintainBenefits(store: Store, agentId: int, newExperienceYears: int)
    modifies store
    ensures store.State() == MaintainBenefits(old(store.State()), agentId, newExperienceYears)
  {
    var has := store.AgentHasBenefits(agentId);
    if newExperienceYears >= BenefitThreshold {
      if !has {
        store.AddBenefitsToAgent(agentId, DefaultBonus, DefaultLeaveDays);
      }
    } else if has {
      store.RemoveBenefitsFromAgent(agentId);
    }
  }

  method ExecUpdate(store: Store, t: Table, id: string, column: string, value: string)
    modifies store
    ensures store.State() == UpdateEffect(old(store.State()), t, DecimalValue(id), column, value)
  {
    var rowId := StringToInt(id);
    var existed := RowExists(store.State(), t, rowId);
    var ok := store.UpdateColumn(t, rowId, column, value);
    if ok && existed {
      if t == Customers && (column == "AgentID" || column == "BookID") {
        store.RefreshCustomerSnapshot(rowId);
      } else if t == Agents && column == "Experience" {
        var newExperienceYears := StringToInt(value);
        ExecMaintainBenefits(store, rowId, newExperienceYears);
      }
    }
  }

  method ExecPurge(store: Store, t: Table, id: string)
    modifies store
    ensures store.State() == PurgeRow(old(store.State()), t, DecimalValue(id))
  {
    var rowId := StringToInt(id);
    match t
    case Agents => store.CascadeDeleteAgent(rowId);
    case Books => store.CascadeDeleteBook(rowId);
    case Authors => store.CascadeDeleteAuthor(rowId);
    case Customers => store.CascadeDeleteCustomer(rowId);
    case Salaries => store.CascadeDeleteSalary(rowId);
  }

  /** Perform one decoded command on the store. */
  method ApplyCommand(store: Store, c: Command)
    modifies store
    ensures store.State() == Apply(old(store.State()), c)
  {
    match c
    case RegisterAgent(name, phone, experience) => ExecRegisterAgent(store, name, phone, experience);
    case RegisterBook(name, authorId, cost) => ExecRegisterBook(store, name, authorId, cost);
    case RegisterAuthor(name, phone, hourlyCharge) => ExecRegisterAuthor(store, name, phone, hourlyCharge);
    case RegisterCustomer(agentId, bookId, name, phone) => ExecRegisterCustomer(store, agentId, bookId, name, phone);
    case RegisterSalary(amount, experience, linkedAgent) => ExecRegisterSalary(store, amount, experience, linkedAgent);
    case Update(t, id, column, value) => ExecUpdate(store, t, id, column, value);
    case Purge(t, id) => ExecPurge(store, t, id);
    case _ =>
  }

  /** The per-line front end of executeScript: trim, skip blanks and
      comments, recognise a pass-through, otherwise split and decode. */
  method ReadLine(rawLine: string) returns (command: Command)
    ensures command == Classify(rawLine)
  {
    var trimmedLine := TrimSimple(rawLine);
    if |trimmedLine| == 0 || trimmedLine[0] == '#' {
      command := Skip;
    } else if |trimmedLine| > 4 && trimmedLine[..4] == "SQL|" {
      command := Passthrough(trimmedLine[4..]);
    } else {
      var tokens := SplitByPipe(trimmedLine);
      command := Decode(tokens);
    }
  }

  /** executeScript: read the lines in order until the end or a stop line. */
  method ExecuteScript(store: Store, scriptLines: seq<string>)
    modifies store
    ensures store.State() == Run(old(store.State()), scriptLines)
  {
    var lineIndex := 0;
    while lineIndex < |scriptLines|
      invariant 0 <= lineIndex <= |scriptLines|
      invariant Run(old(store.State()), scriptLines) == Run(store.State(), scriptLines[lineIndex..])
    {
      var command := ReadLine(scriptLines[lineIndex]);
      assert scriptLines[lineIndex..][0] == scriptLines[lineIndex];
      if command == Stop {
        break;
      }
      ApplyCommand(store, command);
      assert scriptLines[lineIndex..][1..] == scriptLines[lineIndex + 1..];
      lineIndex := lineIndex + 1;
    }
  }

  /** A script run on the store leaves it consistent if it started so. */
  method ExecuteScriptConsistent(store: Store, scriptLines: seq<string>)
    modifies store
    requires Consistent(store.State())
    ensures Consistent(store.State())
  {
    ghost var start := store.State();
    ExecuteScript(store, scriptLines);
    RunKeeps(start, scriptLines);
  }
}
