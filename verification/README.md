# Publishing agency script interpreter and integrity engine, in Dafny

This project models the core of a small publishing-agency database application
(`Main.java`). The application keeps agents, books, authors, customers,
salaries and work benefits in SQLite tables. Four link tables connect them:
AgentBenefit, AgentSalary, BookAuthor and CustomerAgentBook.

A script is a list of pipe-separated lines. Each line registers, updates or
purges a row, displays or computes something, passes a raw SQL statement
through, or stops the script. The integrity engine keeps the link tables
consistent as rows come and go. Three rules matter:

- An agent with at least 10 years of experience gets a work benefit.
- An agent has at most one salary link.
- Deleting a row cascades to the links that name it.

The model has four modules:

- `Text` (`Text.dfy`): the text helpers of the application. These are
  `trimSimple`, `splitByPipe`, `isInteger`, `stringToInt`, `integerToString`
  and `validInput`. Each is a looping method proved against a specification
  function (`Trim`, `SplitFields`, `IsDigits`, `DecimalValue`,
  `DecimalString`), with round-trip lemmas.
- `Tables` (`Tables.dfy`): the database as a value (`Db`). Every change the
  interpreter can make to it is a function, and lemmas state the integrity
  rules. These changes are:
  - inserts with generated ids;
  - benefit provisioning and removal, and the experience rule;
  - salary links;
  - the customer snapshot refresh;
  - column updates;
  - the five cascading deletes.
- `Store` (`Store.dfy`): the store as a class whose fields are the tables,
  with one method per helper of the integrity engine. Each method is proved
  to change the state exactly as the corresponding `Tables` function says.
  `RemoveBenefitsFromAgent` is a loop over the agent's benefit ids that
  deletes the WorkBenefits row of each one (see "Left out" for how a JDBC
  driver may cut that loop short).
- `Script` (`Script.dfy`): the script interpreter, which contains:
  - the `Command` datatype;
  - decoding of a line, and encoding as its inverse (`Classify(Line(c)) == c`);
  - the effect of a command (`Apply`) and of a script (`Run`, which stops
    at the first stop line);
  - the consistency invariant that every command and every script keeps;
  - the store-driving `ExecuteScript` loop, proved to compute `Run`.

  `Apply`, `Run`, `ApplyCommand` and `ExecuteScript` carry the correction
  described under "Findings": the follow-up of an update runs only when the
  update changed a row. `ApplyAsWritten` is the interpreter as written.

All numbers are unbounded integers; Java's 32-bit wrap-around is discussed
under "Left out". Text is `seq<char>`, and the store's SQL is replaced by its
effect on the tables.

## Model

| member | source | states |
|---|---|---|
| Text.TrimSimple | Main.java:708-724 | the result is the input with its leading and trailing ' ' characters removed (`Trim`); other whitespace is kept |
| Text.DropLeadingShape | Main.java:713 | skipping leading spaces leaves a suffix that is empty or starts with a non-space, and only spaces were skipped |
| Text.DropTrailingShape | Main.java:714 | skipping trailing spaces leaves a prefix that is empty or ends with a non-space, and only spaces were skipped |
| Text.TrimShape | Main.java:711-715 | the trimmed text is one contiguous slice of the input that neither starts nor ends with a space |
| Text.TrimSlice | Main.java:711-723 | when everything before index i and from index j on is a space and s[i], s[j-1] are not, the result is exactly s[i..j] |
| Text.TrimIdempotent | Main.java:708-724 | trimming a trimmed text changes nothing |
| Text.TrimNoEdgeSpaces | Main.java:708-724 | a text with no space at either end is returned unchanged |
| Text.CountFields | Main.java:677-683 | the first pass counts one field more than the input has '|' characters |
| Text.FillFields | Main.java:685-703 | the cutting loop stores every piece but the last, trimmed, at its index, and leaves the last piece untrimmed in the current token |
| Text.SplitStep | Main.java:689-702 | reading one character: a '|' closes the current piece and opens an empty one, any other character grows the current piece; the piece index stays inside the array |
| Text.SplitFields | Main.java:673-706 | the number of fields is one more than the number of '\|' characters in the line |
| Text.SplitByPipe | Main.java:673-706 | the result is `SplitFields` of the input: the trimmed texts between consecutive '|' characters, one more than the number of '|' |
| Text.Pieces | Main.java:685-704 | there is one piece more than the input has '|' characters |
| Text.TrimAll | Main.java:694 | each output field is the trimmed input piece at the same index |
| Text.JoinPieces | Main.java:685-704 | the untrimmed pieces joined with '|' give back the input: cutting loses nothing |
| Text.PiecesAtPipe | Main.java:692-697 | the pieces of `s + "\|" + t` are those of `s` followed by those of `t` |
| Text.PiecesOfPlain | Main.java:689-703 | a text without '|' is a single piece |
| Text.PiecesJoin | Main.java:685-704 | cutting the '|'-join of pipe-free fields gives back the fields |
| Text.SplitJoin | Main.java:673-706 | splitting the '|'-join of trimmed, pipe-free fields gives back the fields |
| Text.PiecesPipeFree | Main.java:685-704 | no untrimmed piece holds a '\|': the splitter closes a piece at every '\|' |
| Text.TrimPipeFree | Main.java:711-715 | trimming a text without '\|' leaves a text without '\|' |
| Text.SplitFieldsPlain | Main.java:673-706 | every field the splitter yields is free of '\|' and already trimmed |
| Text.IsInteger | Main.java:1925-1937 | true exactly when the text is non-empty and every character is an ASCII digit (no sign, no space) |
| Text.DecimalValue | Main.java:1939-1950 | the value accumulated left to right is non-negative for a digit string |
| Text.StringToInt | Main.java:1939-1950 | the result is the left-to-right decimal value; it is non-negative for a digit string; for a digit string without a leading zero (or "0") `integerToString` of the result is the text again |
| Text.IntegerToString | Main.java:1953-1965 | the result is `DecimalString(value)`: "0" for every value up to 0, otherwise the decimal digits without a leading zero |
| Text.DigitsRoundTrip | Main.java:1957-1963 | the digits produced for n are ASCII digits, read back as n, and do not start with '0' when n > 0 |
| Text.DecimalStringRoundTrip | Main.java:1939-1965 | for n >= 0, `integerToString(n)` is a digit string and `stringToInt` of it is n |
| Text.DigitPrefixBounded | Main.java:1944-1949 | over a digit string the accumulator never exceeds the final value and is never negative |
| Text.IntRoundTripFits | Main.java:1939-1965 | for 0 <= n <= 2147483647 every intermediate value of `stringToInt(integerToString(n))` fits a Java int, so the 32-bit code agrees with the model there |
| Text.DigitsSnoc | Main.java:1957-1963 | the digits of v*10+d are the digits of v followed by the digit d (v >= 1) |
| Text.LeadingDigitPositive | Main.java:1939-1950 | a digit string not starting with '0' has value at least 1 |
| Text.CanonicalStep | Main.java:1939-1965 | appending a digit to a canonical digit string other than "0" keeps `integerToString(stringToInt(s)) == s` |
| Text.CanonicalDigitsRoundTrip | Main.java:1939-1965 | a digit string without a leading zero, or "0", is `integerToString` of its `stringToInt` |
| Text.NonPositiveIsZero | Main.java:1955 | every value at or below 0 is written as "0" |
| Text.ValidInput | Main.java:1913-1923 | true exactly when the input is one of the allowed strings |
| Tables.EmptyDb | Main.java:753-774 | the freshly created tables satisfy the id invariant |
| Tables.StoredText | Main.java:862-870 | a digit-only text value is written unquoted and so stored as the number it spells (same value, leading zeros lost); any other text is stored as given |
| Tables.InsertAgent | Main.java:846-897 | the row is stored under a positive id not in use that is at least the old counter and below the new one, so an id is never handed out twice (AUTOINCREMENT); nothing else changes, and the id invariant is kept |
| Tables.InsertBook | Main.java:846-897 | as for agents: a positive id not in use, at least the old counter and below the new one, so never reused; only the Books table and its counter change |
| Tables.InsertAuthor | Main.java:846-897 | as for agents: a positive id not in use, at least the old counter and below the new one, so never reused; only the Authors table and its counter change |
| Tables.InsertCustomer | Main.java:846-897 | as for agents: a positive id not in use, at least the old counter and below the new one, so never reused; only the Customers table and its counter change |
| Tables.InsertSalary | Main.java:846-897 | as for agents: a positive id not in use, at least the old counter and below the new one, so never reused; only the Salaries table and its counter change |
| Tables.DropOwner | Main.java:926 | deleting by owner keeps exactly the rows of the other owners |
| Tables.DropTarget | Main.java:997 | deleting by target keeps exactly the rows pointing elsewhere |
| Tables.DropCustomerRows | Main.java:1065 | deleting a customer's snapshot rows keeps exactly the other customers' rows |
| Tables.DropAgentRows | Main.java:1022 | deleting by agent keeps exactly the snapshot rows of other agents |
| Tables.DropBookRows | Main.java:1037 | deleting by book keeps exactly the snapshot rows of other books |
| Tables.LinkedTargetsIff | Main.java:919-924 | the benefit ids the removal loop visits are exactly the targets of the agent's AgentBenefit rows |
| Tables.OwnsLinkIff | Main.java:934-949 | `COUNT(*) > 0` holds exactly when some row belongs to the owner |
| Tables.CountOwnedSnoc | Main.java:911 | inserting one link row raises only its owner's count, by one |
| Tables.CountRowsZero | Main.java:938-943 | a customer has zero snapshot rows exactly when no row names it |
| Tables.CountDropOwner | Main.java:926 | after deleting an owner's rows its count is 0 and other owners' counts are unchanged |
| Tables.CountDropTarget | Main.java:997 | deleting the rows of one target never raises an owner's count |
| Tables.CountDropCustomerRows | Main.java:1065 | after deleting a customer's snapshot rows its count is 0 and other customers' counts are unchanged |
| Tables.LinkBookAuthor | Main.java:217-222 | exactly one row, (book, author), is appended to BookAuthor after the old rows; no other table changes; the id invariant is kept for a generated book id |
| Tables.AddSnapshot | Main.java:268-276 | the row (customer, agent, book) is added; the customer gains exactly one CustomerAgentBook row, other customers' rows are unchanged, no other table changes; the id invariant is kept for a generated customer id |
| Tables.AddBenefits | Main.java:902-913 | provisioning keeps the id invariant |
| Tables.AddBenefitsProvisions | Main.java:902-913 | provisioning adds one fresh WorkBenefits row with the given bonus and leave and one AgentBenefit row pointing to it; only this agent's link count grows, by one; no other table changes |
| Tables.RemoveBenefits | Main.java:915-932 | removal keeps the id invariant |
| Tables.RemoveBenefitsClears | Main.java:915-932 | afterwards the agent owns no AgentBenefit row; exactly the WorkBenefits rows its links named are gone; other agents' links and the remaining benefits are unchanged |
| Tables.MaintainBenefits | Main.java:419-437 | applying the experience rule keeps the id invariant |
| Tables.MaintainBenefitsRule | Main.java:419-437 | after the rule the agent has a benefit link exactly when the experience is at least 10; other agents' link counts and all non-benefit tables are unchanged |
| Tables.AddBenefitsPaired | Main.java:902-913 | provisioning adds a WorkBenefits row and its AgentBenefit row as a pair: every link points to a benefit of its own agent, and every benefit has its link |
| Tables.RemoveBenefitsPaired | Main.java:915-932 | removal deletes both halves of each of the agent's pairs and leaves the other agents' pairs whole |
| Tables.MaintainBenefitsPaired | Main.java:419-437 | the experience rule keeps benefits paired |
| Tables.CascadeDeleteAgentPaired | Main.java:1010-1020 | deleting an agent keeps benefits paired: no link without its benefit, no benefit without its link |
| Tables.TargetsOfCount | Main.java:919-920 | the removal loop reads one benefit id per AgentBenefit row of the agent |
| Tables.RemoveFirstBenefit | Main.java:915-932 | the removal when the loop stops after its first row, deleting one linked benefit and all of the agent's links; related to `RemoveBenefits` by `RemoveFirstBenefitAgrees` |
| Tables.RemoveFirstBenefitAgrees | Main.java:915-932 | deleting only the first linked benefit, as a driver that ends the loop after one row does, is the same as deleting all of them when the agent owns at most one benefit link |
| Tables.MaintainBenefitsIdempotent | Main.java:419-437 | applying the rule twice with the same experience is the same as applying it once |
| Tables.AddAgentSalaryLink | Main.java:972-991 | the salary link made only for an agent without one, with the flag saying whether it was made; stated by `AddAgentSalaryLinkRule` |
| Tables.AddAgentSalaryLinkRule | Main.java:972-991 | the link is made exactly when the agent owns no salary link, and is then the one new row; otherwise nothing changes; at most one salary per agent is kept |
| Tables.AddAgentSalaryLinkValid | Main.java:972-991 | linking to a generated salary id keeps the id invariant |
| Tables.SalaryShared | Main.java:972-991 | two different agents without salary links can both be linked to the same salary |
| Tables.RemoveAgentSalaryLinksForSalary | Main.java:993-1003 | deleting a salary's links keeps the id invariant |
| Tables.RemoveSalaryLinksRule | Main.java:993-1003 | exactly the links to other salaries remain, and "one salary per agent" is kept |
| Tables.RefreshSnapshot | Main.java:398-416 | the refresh keeps the id invariant |
| Tables.RefreshSnapshotExact | Main.java:398-416 | an existing customer ends with exactly one snapshot row, carrying its current agent and book ids (0 included); a missing customer ends with none; other customers' rows and all other tables are unchanged |
| Tables.UpdateAgentRow | Main.java:386-394 | only the addressed Agents row changes, to the row with that column set; a missing id changes nothing |
| Tables.UpdateBookRow | Main.java:386-394 | only the addressed Books row changes, to the row with that column set |
| Tables.UpdateAuthorRow | Main.java:386-394 | only the addressed Authors row changes, to the row with that column set |
| Tables.UpdateCustomerRow | Main.java:386-394 | only the addressed Customers row changes, to the row with that column set |
| Tables.UpdateSalaryRow | Main.java:386-394 | only the addressed Salaries row changes, to the row with that column set |
| Tables.SetColumn | Main.java:384-394 | the update is accepted exactly when the table has the column |
| Tables.SetColumnFrame | Main.java:384-394 | an accepted update keeps every key set, every link table and the id invariant; only the addressed agent's experience can change, to the value's number |
| Tables.CascadeDeleteAgent | Main.java:1008-1030 | the agent cascade keeps the id invariant |
| Tables.CascadeDeleteBook | Main.java:1032-1045 | the book cascade keeps the id invariant |
| Tables.CascadeDeleteAuthor | Main.java:1047-1059 | the author cascade keeps the id invariant |
| Tables.CascadeDeleteCustomer | Main.java:1061-1072 | the customer cascade keeps the id invariant |
| Tables.CascadeDeleteSalary | Main.java:1074-1085 | the salary cascade keeps the id invariant |
| Tables.CascadeDeleteAgentEffect | Main.java:1008-1030 | after deleting an agent:<br>- the agent row is gone, along with its benefit links, the benefits they named, its salary links and its snapshot rows;<br>- customers that had it get agent 0;<br>- every other agent's link counts are unchanged |
| Tables.CascadeDeleteBookEffect | Main.java:1032-1045 | the book row, its BookAuthor rows and its snapshot rows are gone; customers that had it get book 0; nothing else changes |
| Tables.CascadeDeleteAuthorEffect | Main.java:1047-1059 | the author row and the BookAuthor rows naming it are gone; its books get author 0 |
| Tables.CascadeDeleteCustomerEffect | Main.java:1061-1072 | the customer row and all of its snapshot rows are gone |
| Tables.CascadeDeleteSalaryEffect | Main.java:1074-1085 | the salary row and exactly the AgentSalary rows naming it are gone |
| Store.Store.constructor | Main.java:753-774 | the new store holds the empty tables |
| Store.Store.InsertAgent | Main.java:846-897 | the store and the returned id are those of `Tables.InsertAgent` |
| Store.Store.InsertBook | Main.java:846-897 | the store and the returned id are those of `Tables.InsertBook` |
| Store.Store.InsertAuthor | Main.java:846-897 | the store and the returned id are those of `Tables.InsertAuthor` |
| Store.Store.InsertCustomer | Main.java:846-897 | the store and the returned id are those of `Tables.InsertCustomer` |
| Store.Store.InsertSalary | Main.java:846-897 | the store and the returned id are those of `Tables.InsertSalary` |
| Store.Store.InsertBookAuthor | Main.java:806-844 | the new state is `LinkBookAuthor` of the old one |
| Store.Store.InsertSnapshot | Main.java:806-844 | the new state is `AddSnapshot` of the old one |
| Store.Store.AddBenefitsToAgent | Main.java:902-913 | the new state is `AddBenefits` of the old one |
| Store.Store.RemoveBenefitsFromAgent | Main.java:915-932 | the loop over the agent's benefit ids followed by the link delete yields `RemoveBenefits` of the old state |
| Store.Store.AgentHasBenefits | Main.java:934-949 | true exactly when some AgentBenefit row belongs to the agent; nothing changes |
| Store.Store.AgentHasSalary | Main.java:954-968 | true exactly when some AgentSalary row belongs to the agent; nothing changes |
| Store.Store.AddAgentSalaryLink | Main.java:972-991 | the new state and the flag are those of `Tables.AddAgentSalaryLink` |
| Store.Store.RemoveAgentSalaryLinksForSalary | Main.java:993-1003 | the new state is `Tables.RemoveAgentSalaryLinksForSalary` of the old one |
| Store.Store.UpdateColumn | Main.java:384-394 | accepted exactly when the table has the column; then the new state is `SetColumn` of the old one, otherwise nothing changes |
| Store.Store.UpdateAgentRow | Main.java:386-394 | the new state is `Tables.UpdateAgentRow` of the old one |
| Store.Store.UpdateBookRow | Main.java:386-394 | the new state is `Tables.UpdateBookRow` of the old one |
| Store.Store.UpdateAuthorRow | Main.java:386-394 | the new state is `Tables.UpdateAuthorRow` of the old one |
| Store.Store.UpdateCustomerRow | Main.java:386-394 | the new state is `Tables.UpdateCustomerRow` of the old one |
| Store.Store.UpdateSalaryRow | Main.java:386-394 | the new state is `Tables.UpdateSalaryRow` of the old one |
| Store.Store.RefreshCustomerSnapshot | Main.java:398-416 | the new state is `RefreshSnapshot` of the old one |
| Store.Store.CascadeDeleteAgent | Main.java:1008-1030 | the new state is `Tables.CascadeDeleteAgent` of the old one |
| Store.Store.CascadeDeleteBook | Main.java:1032-1045 | the new state is `Tables.CascadeDeleteBook` of the old one |
| Store.Store.CascadeDeleteAuthor | Main.java:1047-1059 | the new state is `Tables.CascadeDeleteAuthor` of the old one |
| Store.Store.CascadeDeleteCustomer | Main.java:1061-1072 | the new state is `Tables.CascadeDeleteCustomer` of the old one |
| Store.Store.CascadeDeleteSalary | Main.java:1074-1085 | the new state is `Tables.CascadeDeleteSalary` of the old one |
| Script.TableCode | Main.java:343-367 | the code of a table is a token that names that table |
| Script.TableTokenIff | Main.java:343-367 | a table token names a table exactly when it is that table's code "1".."5" |
| Script.DecodeRegister | Main.java:154-311 | a register line is one of the five registrations or skipped; an accepted line re-encodes to exactly its fields |
| Script.DecodeUpdate | Main.java:321-383 | an update line is an update or skipped; an accepted line re-encodes to exactly its fields |
| Script.DecodePurge | Main.java:446-462 | a purge line is a purge or skipped; an accepted line re-encodes to exactly its fields |
| Script.Decode | Main.java:146-659 | a line whose first field is "0" is a stop, whatever follows; no other line is; every accepted command re-encodes to exactly the line's fields |
| Script.Encode | Main.java:146-659 | every command is written as at least one field |
| Script.DigitsAreField | Main.java:1925-1937 | a digit string is a field that survives splitting |
| Script.DecodeEncode | Main.java:146-659 | decoding the fields of a well-formed command gives the command back |
| Script.DecodeWellFormed | Main.java:146-659 | fields that survive splitting decode to a well-formed command |
| Script.SplitFieldsClean | Main.java:673-706 | every field of every split line survives splitting, so `DecodeWellFormed` applies to every line the interpreter decodes |
| Script.ClassifyWellFormed | Main.java:96-659 | every raw line means a well-formed command: a line with a non-digit value in a numeric field is skipped, and a pass-through statement is non-empty and does not end in a space; with `LineRoundTrip` the line format is a two-way round trip |
| Script.EncodeFields | Main.java:146-659 | every field of a well-formed command survives splitting |
| Script.JoinPipeHead | Main.java:102-138 | a joined line starts with the first character of its first field |
| Script.LineTrimmed | Main.java:102 | a line made of fields is unchanged by trimming |
| Script.PassthroughLine | Main.java:120-133 | a pass-through is written as "SQL\|" followed by the statement |
| Script.EncodeHead | Main.java:146-659 | the first field of a command line is one digit from 0 to 6 |
| Script.ClassifyDigitLine | Main.java:102-146 | a trimmed line starting with a digit is neither blank, a comment nor a pass-through, so it is split and decoded |
| Script.FieldLineRoundTrip | Main.java:96-659 | reading the line of a well-formed field command gives the command back |
| Script.LineRoundTrip | Main.java:96-659 | reading the line of any well-formed command, pass-throughs, comments and stops included, gives the command back |
| Script.Classify | Main.java:96-146 | the command a raw line means (blank and '#' lines skipped, "SQL\|" lines passed through, other lines split and decoded); `ReadLine` computes it and `LineRoundTrip` proves it inverts `Line` |
| Script.RegisterAgentEffect | Main.java:165-193 | the agent insert followed by provisioning when the experience is at least 10; stated by `RegisterAgentRule` and `RegisterAgentKeeps` |
| Script.RegisterBookEffect | Main.java:195-224 | the book insert followed by the BookAuthor row when the author id is not 0; stated by `RegisterBookRule` and `RegisterBookKeeps` |
| Script.RegisterCustomerEffect | Main.java:250-277 | the customer insert followed by its snapshot row; stated by `RegisterCustomerRule` and `RegisterCustomerKeeps` |
| Script.RegisterSalaryEffect | Main.java:279-311 | the salary insert followed by the conditional agent link; stated by `RegisterSalaryRule` and `RegisterSalaryKeeps` |
| Script.RowExists | Main.java:394 | whether the UPDATE changed a row (`updatedRowCount` would be 1): the addressed id is in its table |
| Script.AfterUpdate | Main.java:396-437 | the follow-up of an update: the snapshot refresh for a customer's AgentID or BookID, the benefit rule for an agent's Experience; stated by `UpdateCustomerRule` and `MaintainKeeps` |
| Script.UpdateEffect | Main.java:384-437 | a rejected column changes nothing; an accepted one sets the column, and the follow-up runs only when a row changed (corrected, see Findings); stated by `UpdateKeeps` and `UpdateCustomerRule` |
| Script.PurgeRow | Main.java:446-489 | the cascade of the addressed table; stated by `PurgeKeeps` and the `Tables.CascadeDelete*Effect` lemmas |
| Script.Apply | Main.java:146-659 | the corrected effect of one command; stated by `ApplyKeeps`, `ApplyAgreesOnExistingRows` and the `Register*Rule` lemmas |
| Script.ApplyAsWritten | Main.java:394-437 | the effect of one command as written, with the follow-up run even when no row changed; stated by `OrphanUpdateAsWritten` and `OrphanBenefitAsWritten` |
| Script.Run | Main.java:90-668 | the corrected effect of a script, line by line up to the first stop; stated by `RunKeeps`, `StopIgnoresRest` and computed by `ExecuteScript` |
| Script.ApplyAgreesOnExistingRows | Main.java:394-437 | the corrected interpreter and the one as written differ only on an accepted update of a missing row |
| Script.EmptyConsistent | Main.java:753-774 | the empty tables are consistent |
| Script.NoLinksForMissingAgent | Main.java:934-949 | in consistent tables an id no agent has owns no benefit link |
| Script.RegisterAgentKeeps | Main.java:165-193 | registering an agent keeps the tables consistent |
| Script.RegisterSalaryKeeps | Main.java:279-311 | registering a salary, linked or not, keeps the tables consistent |
| Script.RegisterBookKeeps | Main.java:195-224 | registering a book keeps the tables consistent |
| Script.RegisterAuthorKeeps | Main.java:226-248 | registering an author keeps the tables consistent |
| Script.RegisterCustomerKeeps | Main.java:250-277 | registering a customer keeps the tables consistent |
| Script.SetColumnKeeps | Main.java:384-394 | an accepted update that is not an existing agent's experience keeps the tables consistent |
| Script.MaintainRestores | Main.java:419-437 | the experience rule makes consistent again tables where only the agent it is applied to might break the benefit rule |
| Script.MaintainKeeps | Main.java:419-437 | setting an existing agent's experience and then applying the rule keeps consistency |
| Script.RefreshKeeps | Main.java:396-417 | refreshing a customer's snapshot keeps consistency |
| Script.UpdateKeeps | Main.java:321-444 | every update command, accepted or not, keeps consistency |
| Script.PurgeKeeps | Main.java:446-489 | every cascading delete keeps consistency |
| Script.ApplyKeeps | Main.java:146-659 | every command of the corrected interpreter keeps consistency:<br>- the id invariant;<br>- at most one salary per agent;<br>- benefit links exactly for existing agents with at least 10 years, never two;<br>- every link paired with a WorkBenefits row of its agent, and every WorkBenefits row with its link |
| Script.RunKeeps | Main.java:90-668 | every script run from consistent tables leaves them consistent |
| Script.StopIgnoresRest | Main.java:148-152 | nothing after a stop line has any effect |
| Script.RegisterAgentRule | Main.java:165-193 | a registered agent is a new row with the given data under the next id, and it has a benefit link exactly when its experience is at least 10, pointing to a benefit with bonus 0 and 14 days of leave |
| Script.RegisterBookRule | Main.java:195-224 | a registered book is a new row with the given data; it gets a BookAuthor row exactly when the author id is not 0, and that row names the given author |
| Script.RegisterSalaryRule | Main.java:279-311 | the Salaries row is created whatever the link outcome; the link to the named agent is the one new AgentSalary row exactly when the agent id is not 0 and the agent owns no salary link; otherwise the AgentSalary rows are unchanged; no agent or benefit changes |
| Script.RegisterCustomerRule | Main.java:250-277 | a registered customer gets exactly one snapshot row, with the agent and book it was registered with |
| Script.UpdateCustomerRule | Main.java:396-417 | after an existing customer's agent or book is updated, it has exactly one snapshot row, carrying its new ids |
| Script.OrphanUpdateAsWritten | Main.java:394-437 | as written, raising the experience of agent 1 in empty tables changes no agent row but adds the benefit link (1, 1) |
| Script.OrphanBenefitAsWritten | Main.java:394-437 | as written, that orphan link then belongs to the next agent registered (id 1, 3 years), which breaks the benefit rule |
| Script.OrphanUpdateCorrected | Main.java:394-437 | corrected, the same update leaves the empty tables unchanged |
| Script.OrphanBenefitCorrected | Main.java:394-437 | corrected, the agent registered next has no benefit link and the benefit rule holds |
| Script.ExecRegisterAgent | Main.java:165-193 | the store changes as `RegisterAgentEffect` says |
| Script.ExecRegisterBook | Main.java:195-224 | the store changes as `RegisterBookEffect` says |
| Script.ExecRegisterAuthor | Main.java:226-248 | the store gains the author row, as `InsertAuthor` says |
| Script.ExecRegisterCustomer | Main.java:250-277 | the store changes as `RegisterCustomerEffect` says |
| Script.ExecRegisterSalary | Main.java:279-311 | the store changes as `RegisterSalaryEffect` says |
| Script.ExecMaintainBenefits | Main.java:419-437 | asking `agentHasBenefits` and then adding or removing yields `MaintainBenefits` |
| Script.ExecUpdate | Main.java:321-444 | the store changes as the corrected `UpdateEffect` says |
| Script.ExecPurge | Main.java:446-489 | the store changes as `PurgeRow` says |
| Script.ApplyCommand | Main.java:146-659 | performing a decoded command changes the store exactly as `Apply` says, corrected (see Findings): an update's follow-up runs only when a row changed |
| Script.ReadLine | Main.java:96-146 | the command read from a raw line is `Classify` of it: blanks and '#' comments are skipped, "SQL\|" lines pass through, anything else is split and decoded |
| Script.ExecuteScript | Main.java:90-668 | running the lines on the store leaves it in the state `Run` gives: each line in order, up to the first stop line; corrected (see Findings): an update's follow-up runs only when a row changed |
| Script.ExecuteScriptConsistent | Main.java:90-668 | a script run on a consistent store leaves it consistent |

## Left out

- Text.StringToInt: Java `int` arithmetic is not modelled. `Text.StringToInt`,
  `Text.DecimalValue` and every id and amount are unbounded integers. For a
  digit string whose value exceeds 2147483647, the source's
  `number * 10 + digit` wraps around modulo 2^32, and the model does not.
  `Text.IntRoundTripFits` states where the two agree.
- Text.IntegerToString: models the source's clamp of every value at or
  below 0 to "0". The store never generates a negative id, but a script can
  supply one. In `2|1|2147483648|Experience|12` the id digits wrap to
  -2147483648 in `stringToInt` (Main.java:421). The follow-up as written
  (see Findings) then provisions a benefit, and `integerToString` writes
  its agent id as "0". The model reads that id as 2147483648 instead. The
  failure id -1 is left out too (see below).
- Store failures: the model does not represent a failing insert (id -1,
  with the follow-up skipped), a failing query or an error suppressed by a
  `catch`. Every SQL statement the interpreter writes is taken to succeed,
  except an UPDATE naming a column the table lacks, which is rejected and
  changes nothing.
- The SQL passthrough: a "SQL|" line is recognised (`Passthrough`), but the
  arbitrary statement it carries is not interpreted; `Apply` leaves the
  tables unchanged for it.
- Display, compute and join commands (codes 4, 5 and 6) are recognised,
  but they only print, so their effect is the identity. Their output,
  `displayTable` and the silent-mode switch are not modelled.
- Column names are compared exactly, as the source's `equals` does. Three
  kinds of update that SQLite would carry out are treated as rejected:
  - an update of a key column;
  - a column spelled in another case;
  - a column token that splices more SQL into the statement (the token is
    pasted into it unquoted, Main.java:386).
- Script.ApplyKeeps, Script.RunKeeps, Script.ExecuteScriptConsistent: the
  consistency they prove holds for the model, which rejects such column
  names. It does not carry over to the source. There the follow-up guards
  (Main.java:397 and 419) use `equals`, so on these inputs the source
  skips the follow-up or orphans links:
  - Agent 1 has 12 years and its benefit. `2|1|1|experience|3` stores 3
    years without the benefit rule, so agent 1 keeps a benefit it is no
    longer entitled to.
  - `2|1|1|Name = 'x', Experience|3` does the same.
  - `2|4|<id>|agentid|7` changes a customer's agent without refreshing
    its snapshot row.
  - `2|1|1|AgentID|9` renumbers an agent and leaves its AgentBenefit and
    AgentSalary rows pointing to no agent.
- Values are the numbers and texts the model keeps. SQLite's dynamic
  typing is not modelled: for example, a non-digit value written into an
  INTEGER column through a text update is stored as the text.
- Null lines and a null script (lines 92, 97-101) cannot occur with
  `seq<string>` and are left out. `readFileLines`, the interactive menu
  functions, `escapeSingleQuotes` (quoting is replaced by storing the value
  itself), table creation and dropping, and `main` are not part of this
  model.
- Store.Store.RemoveBenefitsFromAgent: deletes the WorkBenefits row of
  every benefit id the SELECT returns. The source (Main.java:919-924) runs
  each DELETE on the same `Statement` whose result set the loop is reading.
  By the `java.sql.Statement` contract that closes the result set, so a
  driver may end the loop after the first row, or throw and skip the
  AgentBenefit DELETE. Not modelled: at most one WorkBenefits row deleted
  per call, and the skipped link delete. `Tables.RemoveFirstBenefit`
  models the first-row-only reading. `Tables.RemoveFirstBenefitAgrees`
  proves it equal to the model whenever the agent owns at most one benefit
  link, which the consistency invariant (`Script.BenefitInv`) guarantees.
- Tables.RemoveBenefits: the same loop, as a function. It deletes every
  linked benefit, not only the first.
- Tables.CascadeDeleteAgent: its benefit loop (Main.java:1012-1017) is
  modelled the same way, so all linked benefits are deleted. This differs
  from the first-row-only reading only for an agent with two or more
  benefit links. That state is outside the invariant. It can be reached
  only through the as-written update of a missing agent (see Findings) or
  a pass-through SQL statement.
- Row order of the link tables is kept as insertion order (`seq`). The
  order SQLite returns rows in is not modelled beyond that.

## Findings

| source | as written | input that shows it | evidently intended | confidence | as-written member | corrected member |
|---|---|---|---|---|---|---|
| Main.java:394-437 | after an accepted UPDATE of Agents.Experience the benefit rule runs even when no row was changed (`updatedRowCount` is computed and never used), so a benefit is provisioned for an agent id that does not exist | on empty tables: the line `2\|1\|1\|Experience\|12`, then `1\|1\|Ann\|555-0100\|3`; agent 1 (3 years) ends up holding the benefit created for the missing id | run the follow-up only when the update changed a row | not executed | Script.ApplyAsWritten, Script.OrphanUpdateAsWritten, Script.OrphanBenefitAsWritten | Script.Apply, Script.Run, Script.ApplyCommand, Script.ExecuteScript, Script.OrphanUpdateCorrected, Script.OrphanBenefitCorrected, Script.ApplyKeeps |
