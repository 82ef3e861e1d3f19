# UniqueDialect, verified

UniqueDialect translates SQL between dialects: a scanner and syntax trees taken from TiDB, two small
statement readers, a normaliser and a renderer. This project models seven pieces of it in Dafny and
proves what they are relied on for.

- **Cross joins** (`Bags`, `JoinRows`, `JoinTree`, `JoinMeaning`, `JoinLeaves`, `CrossJoin`): the builder
  that walks down a join tree and grafts into it in place. Join trees denote bags of rows; a row maps
  tables to tuples or to nothing.
- **Digests** (`DigestTokens`, `DigestSource`, `DigestRuns`, `Digester`, `DigestTwins`, `DigestPrivacy`,
  `DigestShows`, `DigestLists`, `DigestGaps`, `DigestAnchors`, `DigestOrder`, `DigestShapes`): the online
  rewriting of a token stack that hides literals and collapses lists, in the mode that redacts literals and is
  not for binding.
- **The scanner** (`ScanText`, `ScanLiterals`, `ScanFeatures`, `ScanTokens`, `Scanner`, `ScanRun`,
  `ScanOne`, `ScanComments`, `ScanEscapes`): reader, comments, numbers, quoted texts, operators and the calls
  among them.
- **Reading and writing statements** (`Strings`, `Numerals`, `TopLevel`, `TopLevelLaws`, `Statements`,
  `Placeholders`, `Rewriting`, `LimitTurns`, `RawNames`, `RawPatterns`, `Rendering`, `Renderer`,
  `RenderNumbers`, `PostgresNumbers`, `KeptText`, `Readers`, `DmlReaders`, `ParserLoops`, `Normalizing`,
  `JoinReading`, `MySqlJoins`, `ReaderPanics`, `ReaderErrors`, `ClauseReading`, `SelectReading`, `SelectTrip`,
  `QuotedNames`, `DmlTrip`, `InsertTrip`, `Semicolons`, `SemicolonTrip`, `LetterCase`, `JoinsAnyCase`,
  `SelectAnyCase`, `DmlAnyCase`, `InsertAnyCase`): the text scanners, the readers, the normaliser and the
  renderer, and how they undo each other.
- **ALTER TABLE** (`AlterSpecs`, `AlterGroups`, `AlterTable`, `AlterEffects`): splitting one statement into an
  ordered batch, and what the parts do to the columns.
- **The translator** (`Translator`, `TranslatorRuns`, `Translation`): the stages of a translation, and lookups,
  computations and stores of concurrent calls as the atomic steps of one system.
- **Visitors** (`ExprErasure`, `ExprCompare`, `ExprEquality`, `Flags`, `FlagMeaning`, `FlagKinds`,
  `FlagSetter`): erasing, comparing and restoring expressions, and flags computed bottom-up.

Code that works by changing things is a method or a class here, proved against a function of its input or
old state; the theorems are about those functions. A predicate that quantifies over a number which is
"asked for" states a fact once and keeps it closed in proofs that only pass it on.

`dafny verify dfyconfig.toml` checks everything.

## What the code does that its description does not say

- `NewCrossJoin` is described as giving `(t1 JOIN t2) ...` for every walked operand. It does not for a
  RIGHT JOIN without parentheses, a NATURAL join or a USING inside the first parentheses
  (`JoinMeaning.PrecedenceExactly`).
- `ExpressionDeepEqual` restores what it erased only where a node is not reached twice
  (`ExprEquality.ExpressionDeepEqual`); comparing an expression with itself erases its positions.
- A digest can keep placeholder, comma, placeholder when a statement starts with a literal, but also when it
  starts with a sign, a charset introducer or an index-hint keyword, or has two introducers in a row or with
  an index hint between them (`DigestAnchors.AnchoredExactly`, `DigestAnchors.DoubledIntroducers`,
  `DigestAnchors.HintedIntroducers`).
- A digest shows whether a literal ends in a dot, because a word after a dot is no keyword: `select 1. from t`
  and `select 1.0 from t` differ (`DigestPrivacy.HiddenExactly`, `DigestShows.DotShows`).
- The MySQL reader loses a second join, or reads a second LEFT JOIN as a JOIN
  (`MySqlJoins.MySqlJoinsExactly`, `MySqlJoins.MySqlJoinsRead`).
- The PostgreSQL reader finds a join in any case of letters but drops its words only in capitals, so that
  `join u` becomes a table name (`SelectAnyCase.PostgresAnyCaseExactly`, `SelectAnyCase.SmallJoinStays`).
- Both readers lose what follows the values of an INSERT when it is not the upsert clause of their dialect, a
  RETURNING for one (`ReaderErrors.OtherTailLost`).
- A LIMIT with an offset is turned around only when its numbers have no signs (`LimitTurns.TurnedExactly`,
  `LimitTurns.SignStays`).
- MODIFY and CHANGE COLUMN set the type and the nullability of a column, but leave its default as it was
  (`AlterEffects.ModifyEffect`).
- The renderer drops the values of an upsert and writes the inserted ones instead
  (`InsertTrip.InsertRoundTripExactly`, `InsertTrip.CountIsLost`).
- An upsert without assigned columns is lost in MySQL text, and is an error in PostgreSQL text
  (`InsertTrip.InsertReadsBack`).
- PostgreSQL numbers become question marks in text order while the arguments stay as they are: `$2, $1` binds
  them the other way round (`Placeholders.BindsAsNumberedExactly`, `Placeholders.SwappedNumbers`).
- A statement whose own text ends in a semicolon loses it (`SemicolonTrip.SelectRoundTripExactly`).
- The SELECT readers slice out of bounds when a WHERE or ORDER BY clause is empty and the next keyword
  shares its space (`ReaderPanics.ParsePanicsExactly`, `ReaderPanics.EmptyWherePanics`).
- Question marks inside string literals are numbered with the parameters
  (`RenderNumbers.BatchParametersExactly`, `RenderNumbers.QuotedMarkCounts`).
- A hexadecimal number before a dot is read as the decimal 0 and an identifier (`ScanTokens.PrefixIsCut`).
- A rendered string literal that holds a backslash is not what the scanner reads back, unless the backslash
  stands before `%` or `_` (`ScanLiterals.LiteralUndoneExactly`).
- The scanner reports the end of input after `@@` when the next character is a zero byte; the contract of
  `Scanner.SqlScanner.Scan` says exactly when the end is reported, and `ScanRun.EndsAtTheStart` is an input.

## Model

| member | source | states |
|---|---|---|
| CrossJoin.NewCrossJoin | internal/parser/tidb/ast/dml.go:130-159 | a leaf, a wrapped operand and a join in written parentheses become the right operand of one new cross join as they are; of any other join the walk goes down its left spine and grafts there; the tree denotes the cross of both operands in every environment if and only if the operand is such a leaf, or written in parentheses, or its spine is safe; its nodes are those of both operands and one new node, reached once each, and the left operand is untouched |
| CrossJoin.GraftInPlace | internal/parser/tidb/ast/dml.go:138-158 | the loop down the left spine, and the graft at the leftmost leaf |
| CrossJoin.SwapIfParens | internal/parser/tidb/ast/dml.go:141-147 | a parenthesised right join becomes a left join with its operands exchanged, and nothing else changes |
| JoinRows.Swap | internal/parser/tidb/ast/dml.go:141-147 | the rows of a right join are the rows of the left join of its exchanged operands, with multiplicities |
| JoinRows.Regroup | internal/parser/tidb/ast/dml.go:104-129 | crossing with other rows before or after a cross, inner or left join that does not look at them gives the same bag |
| JoinRows.Congruence | internal/parser/tidb/ast/dml.go:130-159 | joins of equal bags under conditions that agree on the rows in scope are equal bags |
| JoinRows.JoinAt | internal/parser/tidb/ast/dml.go:130-159 | how often a joined table holds a row: matched pairs plus padded rows (joined table, section 7.7 of ISO/IEC 9075-2:2003) |
| JoinTree.GraftPreserves | internal/parser/tidb/ast/dml.go:138-158 | on a safe left spine the rewritten tree denotes the cross of the two operands in every environment |
| JoinMeaning.CrossPreservedExactly | internal/parser/tidb/ast/dml.go:130-159 | for every operand, the built tree denotes the cross of both operands, with multiplicities, in every environment if and only if the operand is no join, or a join written in parentheses, or its left spine has no NATURAL, no USING and no RIGHT JOIN without parentheses |
| JoinMeaning.Separation | internal/parser/tidb/ast/dml.go:138-158 | for every unsafe spine, an environment and the different bags it gives |
| JoinMeaning.PrecedenceKept | internal/parser/tidb/ast/dml.go:117-129 | the written query, read left to right up to the first join in written parentheses, keeps its meaning when that join has a safe spine |
| JoinMeaning.PrecedenceExactly | internal/parser/tidb/ast/dml.go:117-129 | when no join read left to right is NATURAL or has USING, that reading is kept in every environment if and only if the parenthesised join it stops at has a safe spine |
| JoinLeaves.CrossTreeShape | internal/parser/tidb/ast/dml.go:138-158 | exactly one join more than the operands have, the same leaves as often, and left leaves followed by right leaves if and only if no join on the walk is swapped |
| Digester.SqlDigester.Normalize | internal/parser/tidb/digester.go:216-279 | the loop over tokens leaves exactly the text of the stack that the rewriting of the whole stream gives, keywords looked up in what the text shows around them; every pop is covered by the stack |
| Digester.SqlDigester.IsTokenIdentifier | internal/parser/tidb/misc.go:1134-1180 | an identifier is no keyword with a dot right after it, or before it past blanks; a parenthesis after it, past white space where the mode ignores it, opens the table of function names |
| DigestSource.ShownExactly | internal/parser/tidb/misc.go:1134-1170 | which dots and which parentheses around an identifier count, as places in the text |
| Digester.SqlDigester.ReduceLit | internal/parser/tidb/digester.go:317-405 | what is popped and what the current literal becomes: a placeholder, a list placeholder or itself; an integer stays exactly in such a list behind ORDER BY or GROUP BY |
| Digester.SqlDigester.ReduceOptimizerHint | internal/parser/tidb/digester.go:281-315 | an index hint is dropped up to its closing parenthesis together with the keyword before it, or to the end; STRAIGHT_JOIN is renamed |
| Digester.SqlDigester.IsOrderOrGroupBy | internal/parser/tidb/digester.go:575-599 | the backward walk answers yes exactly when the stack is any prefix, ORDER or GROUP, BY, perhaps an opening parenthesis, and tokens each followed by a comma |
| Digester.SqlDigester.PopBack | internal/parser/tidb/digester.go:672-680 | a pop is only ever called with at least as many tokens on the stack as it takes |
| Digester.SqlDigester.WriteTokens | internal/parser/tidb/digester.go:260-279 | the stack's texts with single spaces between them |
| DigestPrivacy.LiteralsHidden | internal/parser/tidb/digester.go:216-405 | two texts whose tokens differ in literal text only, and whose staying identifiers see the same dots and parentheses, have digests of the same tokens but for integers that an ORDER BY or GROUP BY list keeps, and equal ones exactly when those are equal |
| DigestPrivacy.HiddenExactly | internal/parser/tidb/misc.go:1134-1180 | for such texts, the digests agree so under all keyword tables if and only if each identifier that stays in the digest is shown the same surroundings by both |
| DigestPrivacy.EdgesHide | internal/parser/tidb/digester.go:216-279 | it is enough that the literals start and end alike, as far as dots and parentheses go |
| DigestTwins.RunPairs | internal/parser/tidb/digester.go:216-405 | two such runs push and pop alike, and each identifier on the stack has the code found at the place it came from |
| DigestPrivacy.SameDigestText | internal/parser/tidb/digester.go:216-279 | when no integer is kept, the digest texts are equal |
| DigestShows.StarShows | internal/parser/tidb/digester.go:344-352 | a string literal spelled as a star is kept: why that spelling is excluded |
| DigestShows.IndexShows | internal/parser/tidb/digester.go:281-315 | a string literal spelled index after USE swallows tokens: why that spelling is excluded |
| DigestShows.ParenShows | internal/parser/tidb/digester.go:281-315 | a string literal spelled as a closing parenthesis ends an index hint: why that spelling is excluded |
| DigestShows.DotShows | internal/parser/tidb/misc.go:1134-1148 | a number that ends in a dot keeps the word after it from being a keyword: two digests differ although one literal's text is all that differs |
| DigestLists.RowsCollapse | internal/parser/tidb/digester.go:353-381 | any number of rows of literals, of any positive widths, leaves one parenthesised placeholder: the list one if and only if there are two literals or more |
| DigestOrder.KeptExactly | internal/parser/tidb/digester.go:575-599 | the walk over the stack finds exactly the shape: ORDER or GROUP, BY, perhaps an opening parenthesis, and tokens each followed by a comma |
| DigestOrder.IntegerStaysExactly | internal/parser/tidb/digester.go:317-405 | an integer stays if and only if it goes on no list and the stack, a dropped sign apart, ends in that shape |
| DigestOrder.IntegersStay | internal/parser/tidb/digester.go:216-279 | a run over ORDER BY or GROUP BY and any list of integers, bare or in parentheses, leaves them all on the stack |
| DigestOrder.DigestEndsInIntegers | internal/parser/tidb/digester.go:216-279 | so the digest of a text that ends in such a list ends in these integers |
| DigestOrder.SignDroppedExactly | internal/parser/tidb/digester.go:508-537 | a sign before a number is dropped exactly at the bottom of the stack and behind one of the words no operand can end with |
| DigestShapes.StackLeft | internal/parser/tidb/digester.go:353-405 | what a literal leaves of the stack, by its last tokens: a placeholder and a comma go, with the charset introducers of the last two texts and, at the start of a row, with the parentheses between the rows |
| DigestShapes.TokenLeft | internal/parser/tidb/digester.go:353-405 | and what it becomes: the list behind such tokens, itself in an ORDER BY or GROUP BY list of integers, else the placeholder |
| DigestShapes.StarLeft | internal/parser/tidb/digester.go:344-352 | a star is a literal exactly behind an opening parenthesis |
| DigestShapes.LiteralExactly | internal/parser/tidb/digester.go:611-630 | the kinds of literal, the star and NULL |
| DigestShapes.HintExactly | internal/parser/tidb/digester.go:281-315 | an index hint starts exactly at INDEX behind FORCE, USE or IGNORE |
| DigestShapes.HintEndExactly | internal/parser/tidb/digester.go:292-310 | its scan ends exactly behind the first closing parenthesis or invalid token |
| DigestShapes.TextJoins | internal/parser/tidb/digester.go:260-279 | the texts of two stretches of tokens stand behind each other with one blank between them |
| DigestGaps.NoGapsInRuns | internal/parser/tidb/digester.go:353-404 | no run with an anchored first token and separated charset introducers has placeholder, comma, placeholder in sequence on its stack |
| DigestGaps.RunTidy | internal/parser/tidb/digester.go:353-404 | the invariant of the token stack over every run |
| DigestGaps.StepTidy | internal/parser/tidb/digester.go:317-405 | one token keeps that invariant, whatever it is |
| DigestAnchors.AnchoredExactly | internal/parser/tidb/digester.go:353-404 | a first token keeps such gaps out of every run if and only if it is no literal, no sign, no introducer and no index-hint keyword |
| DigestAnchors.PairsExactly | internal/parser/tidb/digester.go:554-573 | a token after a charset introducer keeps such gaps out of all anchored runs that are separated everywhere else if and only if it is neither another introducer nor the keyword of an index hint (an invalid token and a literal spelled like one do no harm) |
| DigestAnchors.DoubledIntroducers | internal/parser/tidb/digester.go:554-573 | a run with two charset introducers in a row that leaves a gap although it is anchored |
| DigestAnchors.HintedIntroducers | internal/parser/tidb/digester.go:554-573 | such a run with an index hint between the two introducers |
| ExprEquality.ExpressionDeepEqual | internal/parser/tidb/ast/expressions.go:1524-1535 | the answer is true exactly when the expressions are alike down to every child but for text positions and the case of function names; every position and spelling comes back if and only if each node that is reached more than once had nothing to erase; comparing an expression with itself leaves it erased |
| ExprEquality.DisjointRestored | internal/parser/tidb/ast/expressions.go:1524-1535 | two disjoint trees come back unchanged |
| ExprEquality.EqualExactly | internal/parser/tidb/ast/expressions.go:1524-1535 | two expressions are equal when erased if and only if they are alike but for positions and the case of function names |
| ExprEquality.LeftOf | internal/parser/tidb/ast/expressions.go:1500-1535 | a node reached once comes back as it was; one reached again is left at position 0, a call with its name in lower case |
| ExprErasure.RoundTrip | internal/parser/tidb/ast/expressions.go:1500-1517 | what restoring after erasing leaves at every node, for any sharing |
| ExprCompare.ExprCleaner.Enter | internal/parser/tidb/ast/expressions.go:1500-1517 | one visit: saves and erases a node's position and spelling, or consumes the queues and writes them back |
| ExprCompare.Accept | internal/parser/tidb/ast/expressions.go:1500-1521 | a whole visit, in the erasing and in the restoring mode |
| FlagSetter.SetFlag | internal/parser/tidb/ast/flag.go:26-96 | after a run every visited node with a rule has its own bit and the flags of the children its rule names, nodes without a rule and unvisited nodes keep theirs, whatever flags nodes with a rule had before, and a run over an expression where the rules held changes nothing |
| FlagSetter.ParseOneStatement | internal/parser/tidb/yy_parser.go:191-217 | parsing one statement runs the setter twice; the tree is as one run leaves it |
| FlagSetter.Accept | internal/parser/tidb/ast/flag.go:26-96 | the visit, children first |
| Flags.Leave | internal/parser/tidb/ast/flag.go:38-96 | the rule of every kind of node, applied to the stored flags |
| Flags.CaseFlag | internal/parser/tidb/ast/flag.go:98-111 | operand, WHEN and THEN expressions and ELSE of a CASE |
| Flags.PatternInFlag | internal/parser/tidb/ast/flag.go:113-122 | operand, list and subquery of IN |
| Flags.PatternFlag | internal/parser/tidb/ast/flag.go:124-138 | pattern and operand of LIKE and REGEXP |
| Flags.JoinFlags | internal/parser/tidb/ast/flag.go:140-170 | the flags of a list joined to a start value |
| FlagMeaning.FlagMeansBelow | internal/parser/tidb/ast/flag.go:38-96 | a flag has a bit if and only if some node that named children lead down to adds it |
| FlagKinds.BitMeans | internal/parser/tidb/ast/flag.go:38-170 | a flag has a bit if and only if a way down through the operands, arguments and branches that nodes look at leads to a node of a kind the bit stands for, or to one without a rule that had it |
| FlagKinds.ChildrenExactly | internal/parser/tidb/ast/flag.go:26-96 | the children that are visited are those looked at, and those below subqueries, orders, windows, positions and VALUES |
| Translator.TranslatorObject.Translate | translator.go:58-82 | a call without interference returns the direct translation and counts once on success, not at all on failure |
| Translator.KeyInjective | translator.go:59 | different statements never share a cache entry of one translator |
| TranslatorRuns.EveryRun | translator.go:58-82 | under every interleaving each entry and each result is the direct translation of its statement |
| TranslatorRuns.ResultsAreDirect | translator.go:58-82 | a finished call returned the direct translation |
| TranslatorRuns.Accounting | translator.go:58-82 | hits plus misses are the finished successful calls, and the cache never has more entries than misses |
| TranslatorRuns.FailuresLeaveNoTrace | translator.go:58-82 | taking the steps of a failed call out of a run leaves the same final cache, statistics and other calls, under every interleaving |
| TranslatorRuns.EntriesStay | translator.go:76-79 | entries are never dropped nor changed |
| TranslatorRuns.LaterLookupsHit | translator.go:61-69 | after a success, every later lookup of the statement hits |
| Translation.Stages | translator.go:84-116 | nothing is done between equal dialects, a blocked statement is refused, a normalised one is rendered, and only what the grammar parser leaves over depends on the statement readers |
| Translation.WrittenIsTranslated | translator.go:84-116 | a statement that comes back from its text, written for MySQL or PostgreSQL and left to the readers, is translated to the statement rendered for the other dialect |
| Translation.AnyCaseIsTranslated | translator.go:84-116 | so is a SELECT in MySQL text with its keywords in any case of letters |
| AlterTable.NormalizeAlterTable | internal/normalize/tidb_ddl.go:40-195 | raw SQL exactly when some non-nil spec is unsupported; otherwise the one list of well-formed statements that flattens to the concatenation of the specs' expansions in source order and begins a new statement only where it must |
| AlterGroups.GroupedExactly | internal/normalize/tidb_ddl.go:47-56 | the grouping is the only one that is well formed, keeps the order and puts specs of one kind apart only before a foreign key that must not follow the columns added there |
| AlterGroups.GroupedSound | internal/normalize/tidb_ddl.go:129-157 | what every step of the grouping keeps |
| AlterTable.BuildBatch | internal/normalize/tidb_ddl.go:57-183 | the loop over the specs with its flushes leaves exactly the grouping of their expansions |
| AlterTable.AddForeignKeySpec | internal/normalize/tidb_ddl.go:142-157 | the current statement is flushed exactly when it adds columns and some key column is not among them, and the foreign key goes to what is current then |
| AlterTable.AddUniqueSpec | internal/normalize/tidb_ddl.go:129-141 | a unique key is put into a statement of its own |
| AlterTable.AddMutation | internal/normalize/tidb_ddl.go:279-301 | a column change becomes its type change, then setting or dropping NOT NULL |
| AlterTable.ShouldSplitBeforeForeignKey | internal/normalize/tidb_ddl.go:380-406 | a split is asked for exactly when columns are added before and some key column is not one of them |
| AlterTable.ChangeColumnSpec | internal/normalize/tidb_ddl.go:102-118 | CHANGE COLUMN: a rename where the names differ, then the change of the definition |
| AlterEffects.ModifyEffect | internal/normalize/tidb_ddl.go:96-101 | after the expansion of MODIFY COLUMN the column has the type and the nullability of its definition, its default and all other columns are as before, and a column that is not there is an error |
| AlterEffects.ChangeEffect | internal/normalize/tidb_ddl.go:102-118 | the same for CHANGE COLUMN, under the new name, and the old one is gone |
| AlterEffects.ColumnEffects | internal/normalize/tidb_ddl.go:63-95 | what adding and dropping a column and altering a default do to the columns |
| AlterEffects.KeysKeepColumns | internal/normalize/tidb_ddl.go:119-183 | keys and indexes leave the columns as they are |
| AlterEffects.ConstraintsAdded | internal/normalize/tidb_ddl.go:119-169 | which constraint is added for which type, with its columns, and for a foreign key its reference |
| AlterEffects.EffectsInOrder | internal/normalize/tidb_ddl.go:57-183 | the specs of a statement take effect one after the other |
| AlterEffects.ColumnMade | internal/normalize/tidb_ddl.go:243-277 | a column is NOT NULL if and only if the last of its NULLs and NOT NULLs says so; its default is that of the last one; key and increment options count wherever they stand |
| AlterEffects.SupportedExactly | internal/normalize/tidb_ddl.go:57-183 | which specs are supported, type by type |
| AlterEffects.PartsMade | internal/normalize/tidb_ddl.go:303-322 | the parts of a key come out in order with their columns, expressions, lengths and directions |
| TopLevel.FindTopLevelKeyword | internal/syntax/syntax.go:141-184 | the three quote flags and the depth counter compute the search over one mode |
| TopLevel.FindIsFirst | internal/syntax/syntax.go:141-184 | the answer is the first place outside quotes and parentheses where the keyword starts, or -1 when there is none |
| LetterCase.FoundExactly | internal/syntax/syntax.go:141-184 | the search answers n if and only if the keyword stands at n, in any case of letters and outside quotes and parentheses, and at no place before |
| LetterCase.FindAlike | internal/syntax/syntax.go:141-184 | texts and keywords that differ in the case of ASCII letters only are found at the same place |
| Strings.AlikeExactly | internal/syntax/syntax.go:141-143 | raising two texts to capitals makes them equal if and only if they differ in the case of ASCII letters only |
| TopLevel.SplitTopLevelCSV | internal/syntax/syntax.go:98-139 | the trimmed pieces between the top-level commas |
| TopLevel.FindMatchingParen | internal/syntax/syntax.go:186-226 | the parenthesis at which the mode first comes back to the outside |
| TopLevelLaws.SplitList | internal/render/render.go:123-139 | splitting undoes joining with commas, for pieces closed in quotes and parentheses |
| TopLevelLaws.MatchesClosed | internal/syntax/syntax.go:186-226 | matching finds exactly the closing parenthesis of a closed list |
| TopLevelLaws.QuotesHide | internal/syntax/syntax.go:152-184 | a text between any of the three quote marks is one piece: no comma, keyword or parenthesis is seen in it |
| TopLevelLaws.ParensHide | internal/syntax/syntax.go:152-184 | so is a closed text between parentheses |
| Statements.QuoteIdentifierChain | internal/render/render.go:1251-1267 | every dotted part trimmed and put between quote marks |
| Statements.StripIdentifier | internal/normalize/normalize.go:82-89 | every dotted part trimmed of quote marks and blanks, in place |
| Statements.BareQuoted | internal/normalize/normalize.go:82-89 | stripping undoes quoting for every identifier: both leave the bare name |
| Statements.DottedQuoted | internal/render/render.go:1251-1267 | a name with a dot is quoted part by part |
| Statements.CutOff | internal/render/render.go:1259-1267 | blanks and both quote marks are trimmed from the ends of a part |
| Placeholders.ReplaceQuestionPlaceholders | internal/render/render.go:1230-1249 | each question mark becomes the next number, and the counter advances by their number |
| Placeholders.ReadsBackExactly | internal/render/render.go:1185-1197 | turning numbers back into question marks restores a text if and only if no mark and no question mark in it is followed by a digit |
| Placeholders.BindsTheSame | internal/render/render.go:1230-1249 | binding by number puts every argument where its question mark stood |
| Placeholders.BindsAsNumberedExactly | internal/render/render.go:1185-1197 | turning the numbers of a text into question marks keeps what every argument list is bound to if and only if the numbers are 1, 2, 3 and so on in text order and the text has no question marks of its own |
| Placeholders.SwappedNumbers | internal/render/render.go:1185-1197 | $2, $1 becomes ?, ?, which binds the two arguments the other way round |
| PostgresNumbers.BatchLosesNumbers | internal/render/render.go:27-47 | a PostgreSQL batch rendered for MySQL or SQLite is its rewritten text with every number turned into a question mark |
| PostgresNumbers.BatchBindsAlikeExactly | internal/render/render.go:1185-1197 | its arguments, passed on as they are, are bound as the numbers say if and only if these are 1, 2, 3 and so on in text order and no fragment holds a question mark, for names without dollar signs and question marks |
| PostgresNumbers.StatementSeams | internal/render/render.go:106-197 | in no statement does the renderer write a digit behind a fragment, so that no number grows |
| Rendering.UpsertsAlike | internal/render/render.go:1107-1137 | two INSERTs that differ in the values of an upsert only are written the same in every dialect |
| Rendering.RewriteRaw | internal/render/render.go:1164-1197 | a fragment is trimmed, goes through the patterns between the two dialects in their order and, from MySQL to a numbering dialect, is numbered on from the counter, which advances by as many |
| Rendering.TreatedExactly | internal/render/render.go:1164-1197 | between equal dialects, and from SQLite and Oracle, a fragment is trimmed only; from MySQL and PostgreSQL it goes through their patterns, and from MySQL to PostgreSQL and Oracle its question marks are numbered with their marks |
| Rewriting.MarksKept | internal/render/render.go:1164-1228 | the MySQL patterns keep the number of question marks of every text |
| Rewriting.PostgresMarksKept | internal/render/render.go:1185-1193 | so do the PostgreSQL patterns before the numbers are replaced |
| Rewriting.PiecesRewritten | internal/render/render.go:1171-1178 | the pieces between question marks outside back quotes are rewritten on their own, so each mark stays between the same two pieces |
| Rewriting.LimitAfterMarks | internal/render/render.go:1199-1228 | turning a LIMIT clause around replaces only text after the last question mark |
| LimitTurns.PairExactly | internal/render/render.go:18 | the pattern matches exactly two numbers with a comma between them and white space around them |
| LimitTurns.PostgresTurned | internal/render/render.go:1199-1228 | for PostgreSQL a matched clause is replaced by one that the PostgreSQL reader reads as the MySQL reader read the old one |
| LimitTurns.TurnedExactly | internal/render/render.go:1199-1228 | when the MySQL reader takes the clause for an offset m and a count n, the PostgreSQL reader takes the clause of the rewritten text for the same if and only if the clause is such a pair of numbers without signs |
| LimitTurns.SignStays | internal/render/render.go:1211-1216 | LIMIT +2, 3 is read with its sign, but not turned around |
| LimitTurns.OracleTurned | internal/render/render.go:1222-1228 | for Oracle as many rows are skipped as the offset says, and as many fetched as the count |
| LimitTurns.OthersKept | internal/render/render.go:1199-1216 | a text without such a pair, and every text for MySQL and SQLite, keeps its LIMIT clause |
| LimitTurns.PatternsTail | internal/render/render.go:1171-1186 | the patterns before it leave the end of a text alone in which none of their characters stands |
| LimitTurns.RawForPostgres | internal/render/render.go:1164-1197 | a whole raw MySQL text that ends in such a clause, written for PostgreSQL: its head rewritten and numbered, and a clause that says the same |
| LimitTurns.RawForOracle | internal/render/render.go:1164-1197 | the same for Oracle |
| LimitTurns.OracleLimit | internal/render/render.go:1154-1159 | a limit that was parsed is written with as many rows to skip and to fetch |
| RawNames.NamesRewritten | internal/render/render.go:1171-1186 | words and names between back quotes come out with each name between the marks of the other dialect and the words unchanged |
| RawNames.UnionRewritten | translator_test.go:377-401 | the union of two selections with LIMIT 2, 3 comes out for PostgreSQL with LIMIT 3 OFFSET 2 |
| RawPatterns.ReplacedFirst | internal/render/render.go:1176-1178 | a replacement takes the leftmost match and goes on behind it |
| RawPatterns.NowReplaced | internal/render/render.go:1176 | NOW() becomes CURRENT_TIMESTAMP |
| RawPatterns.StampReplaced | internal/render/render.go:1177 | CURRENT_TIMESTAMP() loses its parentheses |
| RawPatterns.KeyReplaced | internal/render/render.go:1178 | PRIMARY KEY( gets a blank before its parenthesis |
| RawPatterns.IntroducerDropped | internal/render/render.go:20 | a charset introducer goes and its literal stays |
| RawPatterns.LikeWritten | internal/render/render.go:17 | ILIKE in any case of letters, with white space around it, becomes LIKE |
| RawPatterns.NumberDropped | internal/render/render.go:16 | a dollar sign and the digits behind it become a question mark |
| RawPatterns.DollarKept | internal/render/render.go:16 | a dollar sign without digits stays |
| Rendering.UpsertItem | internal/render/render.go:1107-1137 | what an upsert sets a column to in MySQL, PostgreSQL and SQLite |
| Renderer.RenderSelect | internal/render/render.go:106-145 | the builder and the counter hold the parts of a SELECT in order |
| Renderer.RenderInsert | internal/render/render.go:147-169 | the same for INSERT, upsert clause included |
| Renderer.RenderUpdate | internal/render/render.go:171-186 | the same for UPDATE |
| Renderer.RenderDelete | internal/render/render.go:188-197 | the same for DELETE |
| Renderer.RenderBatch | internal/render/render.go:28-47 | one counter for the batch, blank texts dropped, the rest joined |
| Renderer.BatchPair | internal/render/render.go:28-47 | of two statements the second is numbered on from the first, with a semicolon and a blank between them unless one is blank |
| RenderNumbers.BatchNumbers | internal/render/render.go:28-47 | a MySQL batch rendered for PostgreSQL or Oracle is its rewritten text with the question marks numbered 1..n in the order of the text |
| RenderNumbers.NumbersTaken | internal/render/render.go:1230-1249 | a MySQL statement takes as many numbers as its fragments had question marks before any rewriting |
| RenderNumbers.BatchBinds | internal/render/render.go:1230-1249 | from MySQL to PostgreSQL or Oracle, binding argument k to number k puts it where the k-th question mark stood |
| RenderNumbers.BatchParametersExactly | internal/render/render.go:1230-1249 | so argument k goes where the k-th parameter stood, if and only if no question mark stands inside quotes |
| RenderNumbers.QuotedMarkCounts | internal/render/render.go:1230-1249 | a question mark inside a string literal is numbered, and the one parameter gets the second number |
| RenderNumbers.NumberedBlank | internal/render/render.go:38-41 | numbering neither blanks a statement nor fills a blank one |
| ParserLoops.FindFirstJoin | internal/syntax/postgres/parser.go:230-242 | the earliest of the three join keywords |
| ParserLoops.ReadFromAndJoins | internal/syntax/postgres/parser.go:198-228 | the loop over the joins of a FROM clause, its table kept apart |
| ParserLoops.ReadSelect | internal/syntax/postgres/parser.go:29-75 | the SELECT reader, with its errors and with the slices that go out of bounds |
| ParserLoops.ReadMySqlSelect | internal/syntax/mysql/parser.go:29-75 | the same for the MySQL reader |
| ReaderPanics.ParsePanicsExactly | internal/syntax/postgres/parser.go:39-66 | reading a statement, in either dialect, slices out of bounds if and only if it is a SELECT whose first WHERE or ORDER BY has as its closing space the opening space of the first ORDER BY or LIMIT |
| ReaderPanics.EmptyWherePanics | internal/syntax/mysql/parser.go:38-65 | SELECT a FROM t WHERE LIMIT 1 does so in both dialects |
| ParserLoops.ReadAssignmentList | internal/syntax/postgres/parser.go:244-258 | a list of assignments, failing with the first part that has no equals sign |
| ParserLoops.NormalizeIdentifiers | internal/syntax/postgres/parser.go:270-276 | the outer quote marks of each name removed |
| ParserLoops.ReadMySqlFrom | internal/syntax/mysql/parser.go:194-218 | the loop of the MySQL reader over a FROM clause |
| ReaderErrors.AssignmentsFail | internal/syntax/postgres/parser.go:244-258 | a list of assignments is an error if and only if a part has no equals sign |
| ReaderErrors.CutAtFirst | internal/syntax/postgres/parser.go:248-255 | the first equals sign divides an assignment |
| ReaderErrors.NoColumnsRaw | internal/syntax/postgres/parser.go:77-82 | an INSERT without a parenthesis stays raw |
| ReaderErrors.NoValuesRaw | internal/syntax/postgres/parser.go:93-97 | so does one without VALUES behind its columns |
| ReaderErrors.OpenColumnsFail | internal/syntax/postgres/parser.go:77-86 | an INSERT whose column list is not closed is an error |
| ReaderErrors.BadValuesFail | internal/syntax/postgres/parser.go:97-105 | so is one whose values have no parentheses or are not closed |
| ReaderErrors.OtherTailLost | internal/syntax/postgres/parser.go:109-137 | what follows the values and is no upsert clause of the dialect is lost |
| ReaderErrors.OtherActionsFail | internal/syntax/postgres/parser.go:121-126 | a conflict answered by anything but an update is an error |
| ReaderErrors.NothingFails | internal/syntax/postgres/parser.go:121-126 | DO NOTHING is such an error |
| ReaderErrors.NoTargetFails | internal/syntax/postgres/parser.go:113-120 | so is a conflict without columns in parentheses |
| ReaderErrors.OtherWordsRaw | internal/syntax/postgres/parser.go:12-27 | a text that starts with none of the four words, in any case of letters, stays raw with its semicolon |
| ReaderErrors.SemicolonDropped | internal/syntax/postgres/parser.go:12-15 | one semicolon behind a statement makes no difference |
| ReaderErrors.BadLimitsFail | internal/syntax/mysql/parser.go:171-192 | a limit that is no number, or has three of them, is an error |
| JoinReading.FromAndJoinsRead | internal/syntax/postgres/parser.go:198-228 | a FROM clause in pieces is read back: its table and every join in order |
| ClauseReading.ClausesFound | internal/syntax/postgres/parser.go:39-46 | each clause keyword is found where the clause was written, and a missing clause is not found |
| SelectReading.LimitRead | internal/syntax/postgres/parser.go:177-196 | LIMIT with and without OFFSET is read back, for every 64-bit count |
| SelectReading.MySqlLimitRead | internal/syntax/mysql/parser.go:171-192 | the MySQL form, offset first, is read back |
| SelectTrip.MySqlSelectExactly | internal/syntax/mysql/parser.go:29-75 | the same SELECT rendered for MySQL, parsed and normalised, is the same if and only if it has at most one join |
| SelectTrip.MySqlSelectReadsBack | internal/syntax/mysql/parser.go:29-75 | and with more it is the same SELECT with the joins that the reader makes of them |
| SelectTrip.SelectRoundTrip | internal/syntax/postgres/parser.go:29-75 | a SELECT in trimmed, closed, non-empty pieces, free of the keywords the reader seeks in their place, with upper-case join kinds and an ON on every join, rendered for PostgreSQL, parsed and normalised is the same SELECT |
| SelectAnyCase.PostgresAnyCaseExactly | internal/syntax/postgres/parser.go:29-75 | with its keywords in any case of letters, the rendered SELECT is read by the PostgreSQL reader as the same SELECT if and only if the words of its joins are in capitals |
| SelectAnyCase.PostgresAnyCase | internal/syntax/postgres/parser.go:198-228 | and otherwise as the same SELECT with those words left in the table names |
| SelectAnyCase.SmallJoinStays | internal/syntax/postgres/parser.go:198-228 | select a from t join u on b is read with a table called join u |
| SelectAnyCase.MySqlAnyCase | internal/syntax/mysql/parser.go:29-75 | by the MySQL reader it is read as the same SELECT, in any case of letters, if and only if it has at most one join |
| DmlAnyCase.UpdateAnyCase | internal/syntax/mysql/parser.go:132-156 | an UPDATE in any case of letters is read as the same UPDATE in both dialects |
| DmlAnyCase.DeleteAnyCase | internal/syntax/mysql/parser.go:158-169 | so is a DELETE |
| InsertAnyCase.InsertAnyCase | internal/syntax/mysql/parser.go:77-130 | an INSERT in any case of letters is read as the one in capitals is, so as the same one if and only if its upsert clause says what the renderer writes |
| MySqlJoins.MySqlJoinsExactly | internal/syntax/mysql/parser.go:194-250 | the MySQL reader gives a FROM clause in pieces back if and only if it has at most one join |
| MySqlJoins.MySqlJoinsRead | internal/syntax/mysql/parser.go:194-250 | what comes back of any number of joins, when the tables of plain JOINs hold no join keyword: the first one; and of every join behind one that was read, a JOIN is lost and the next join is read as it is, while a LEFT or INNER JOIN is read as a JOIN |
| JoinsAnyCase.PostgresJoinsRead | internal/syntax/postgres/parser.go:198-242 | what the PostgreSQL reader makes of joins whose words are in any case of letters |
| JoinsAnyCase.MySqlAnyCaseExactly | internal/syntax/mysql/parser.go:194-264 | the MySQL reader gives such a FROM clause back if and only if it has at most one join |
| InsertTrip.InsertRoundTripExactly | internal/syntax/mysql/parser.go:77-130 | an INSERT rendered for MySQL or PostgreSQL, parsed and normalised, is the same if and only if its upsert clause, if there is one, is of the style of the dialect, aims at the first column (in PostgreSQL: at some columns) and sets at least one column, each to its inserted value |
| InsertTrip.InsertReadsBack | internal/syntax/mysql/parser.go:77-130 | what comes back otherwise: the same INSERT with such an upsert clause; when nothing is assigned, one without it from MySQL and an error from PostgreSQL |
| InsertTrip.CountIsLost | internal/render/render.go:1107-1137 | ON DUPLICATE KEY UPDATE n = n + 1 is read and then lost |
| DmlTrip.UpdateRoundTrip | internal/syntax/mysql/parser.go:132-156 | an UPDATE whose text does not end in a semicolon survives rendering for MySQL or PostgreSQL, parsing and normalising |
| DmlTrip.DeleteRoundTrip | internal/syntax/mysql/parser.go:158-169 | so does such a DELETE |
| SemicolonTrip.SelectRoundTripExactly | internal/syntax/postgres/parser.go:12-75 | a SELECT in such pieces survives the trip through PostgreSQL text if and only if that text does not end in a semicolon |
| SemicolonTrip.MySqlRoundTripExactly | internal/syntax/mysql/parser.go:12-75 | one through MySQL text if and only if that text does not end in a semicolon and there is at most one join |
| SemicolonTrip.UpdateRoundTripExactly | internal/syntax/mysql/parser.go:132-156 | an UPDATE survives if and only if its text does not end in a semicolon |
| SemicolonTrip.DeleteRoundTripExactly | internal/syntax/mysql/parser.go:158-169 | so does a DELETE |
| Semicolons.FromSemis | internal/syntax/postgres/parser.go:198-228 | the PostgreSQL reader finds no semicolon in a FROM clause that is not in its text |
| Semicolons.MySqlFromAndJoinsSemis | internal/syntax/mysql/parser.go:194-250 | nor does the MySQL reader |
| SemicolonTrip.SelectSemis | internal/syntax/postgres/parser.go:29-75 | nor either reader in a SELECT whose clauses stand in order |
| Normalizing.Normalize | internal/normalize/normalize.go:11-80 | the case mapping with its loops over joins and assignments |
| KeptText.KeptIsPlain | internal/render/render.go:1164-1168 | between equal dialects the written text is the parts themselves, fragments trimmed |
| QuotedNames.ColumnPieces | internal/syntax/syntax.go:228-235 | quoted column names are closed pieces, and reading the list gives the names back |
| ScanText.PosMeans | internal/parser/tidb/lexer.go:1050-1057 | a position's line counts the newlines before it, and its column measures the distance to the last of them |
| Scanner.SqlScanner.Inc | internal/parser/tidb/lexer.go:1050-1057 | after one character the position is the one its offset determines |
| Scanner.SqlScanner.IncAsLongAs | internal/parser/tidb/lexer.go:1086-1097 | stops at the first character that does not pass, or at the end |
| Scanner.SqlScanner.Scan | internal/parser/tidb/lexer.go:401-430 | the mutual recursion ends; the token is the one that the character at its start determines; its interval lies ahead of where the call began, only white space and comments lie between, the call moves forward unless it reports the end or an invalid token, every position is the one its offset determines, and the end is reported exactly at the end of the text, at an unclosed comment and at a system variable without a name before a zero byte |
| ScanOne.NextToken | internal/parser/tidb/lexer.go:401-430 | one call told by the character at its token: quoted texts, names and numbers, quoted digits, the national introducer, dots, user and system variables with their scopes, and the longest operator, each with kind, literal and end |
| ScanOne.OperatorIsLongest | internal/parser/tidb/lexer.go:418-429 | of the listed operators the longest that stands there is taken, and none if and only if none stands there |
| ScanOne.ScanWrittenLiteral | internal/parser/tidb/lexer.go:756-787 | a rendered text literal is scanned as one token with the text as its literal if and only if backslashes are plain characters or each one in it stands before a percent sign or an underscore |
| ScanOne.ScanWrittenName | internal/parser/tidb/lexer.go:687-710 | a rendered name is scanned as one token with the name as its literal if and only if there is no back quote in it |
| ScanComments.LineExactly | internal/parser/tidb/lexer.go:482-498 | a line comment starts exactly at a sharp, and at two dashes before white space or the end |
| ScanComments.DashExactly | internal/parser/tidb/lexer.go:500-513 | another dash is the longer arrow, the shorter one or a minus sign |
| ScanComments.BangExactly | internal/parser/tidb/lexer.go:530-535 | a comment with an exclamation mark is scanned from behind the mark, or from behind exactly five digits |
| ScanComments.HintExactly | internal/parser/tidb/lexer.go:552-570 | one with a plus sign is a hint exactly where a hint may stand |
| ScanComments.FeatureExactly | internal/parser/tidb/lexer.go:537-548 | one with T and an exclamation mark is scanned from behind its list of features if all are known, skipped otherwise, and scanned from behind the mark without a list |
| ScanComments.OthersSkipped | internal/parser/tidb/lexer.go:549-576 | a comment that is none of these, nor a hint, is skipped |
| ScanRun.EndsAtTheStart | internal/parser/tidb/lexer.go:618-674 | a text that starts with two at signs and a zero byte is reported to end there |
| Scanner.SqlScanner.StartWithSlash | internal/parser/tidb/lexer.go:516-601 | which comment opens: a division sign, a version or feature comment whose text is scanned from a determined place, a comment that is skipped to its end, or a hint; an unclosed one gives the end |
| Scanner.SqlScanner.SkipComment | internal/parser/tidb/lexer.go:578-600 | a comment ends with the first star and slash after its opening, or is unclosed |
| Scanner.SqlScanner.StartWithStar | internal/parser/tidb/lexer.go:603-616 | inside a scanned comment a star and a slash end it and the next token follows; otherwise the token is the star |
| Scanner.SqlScanner.StartWithDash | internal/parser/tidb/lexer.go:489-514 | two dashes before white space or the end open a line comment, after which the next token follows; otherwise an arrow of two or three characters, or a minus sign |
| Scanner.SqlScanner.StartWithSharp | internal/parser/tidb/lexer.go:482-487 | the next token after a comment that ends with its line |
| Scanner.SqlScanner.StartWithAt | internal/parser/tidb/lexer.go:618-656 | user and system variables: kind, literal and end, with the scope and the quotes of a name |
| Scanner.SqlScanner.StartWithNumber | internal/parser/tidb/lexer.go:819-876 | kind, literal and end of what starts with a digit; a rewind still moves forward |
| ScanTokens.NumberKinds | internal/parser/tidb/lexer.go:819-876 | it is an integer, hexadecimal or bit literal if and only if its longest word looks like one and no dot follows |
| ScanTokens.PrefixIsCut | internal/parser/tidb/lexer.go:865-868 | a hexadecimal word before a dot is cut back to the decimal 0 |
| Scanner.SqlScanner.ScanFloat | internal/parser/tidb/lexer.go:915-947 | the rewind to the start of a number; digits, fraction and exponent make a float or a decimal, and an exponent without digits the second rewind, to an identifier |
| Scanner.SqlScanner.StartWithDot | internal/parser/tidb/lexer.go:878-893 | a dot after an identifier or before no digit, a fraction, or invalid text |
| Scanner.SqlScanner.ScanOperator | internal/parser/tidb/lexer.go:418-429 | the walk down the operator trie takes as much as leads further down |
| Scanner.SqlScanner.ScanString | internal/parser/tidb/lexer.go:756-787 | a quoted text with doubled quotes and escapes decoded, and where it stops |
| Scanner.SqlScanner.ScanQuotedIdent | internal/parser/tidb/lexer.go:687-710 | an identifier between back quotes, doubled ones decoded |
| Scanner.SqlScanner.ScanFeatureIDs | internal/parser/tidb/lexer.go:972-1016 | the automaton's answer; on rejection the reader is where it began |
| Scanner.SqlScanner.ScanVersionDigits | internal/parser/tidb/lexer.go:957-970 | between the least and the greatest number of digits, or a rewind |
| ScanRun.ScanAll | internal/parser/tidb/lexer.go:401-430 | a run tiles the text: tokens of positive length with gaps of white space and comments only; what is left when the end is reported is nothing, an unclosed comment or a system variable without a name |
| ScanRun.TilesInOrder | internal/parser/tidb/lexer.go:401-430 | the tokens of a run are disjoint and in the order of the text |
| ScanLiterals.LiteralUndoneExactly | internal/render/render.go:1078-1080 | scanning a rendered string literal gives the text back and stops just past it if and only if backslashes are plain characters or each one in the text stands before a percent sign or an underscore |
| ScanLiterals.NameUndoneExactly | internal/render/render.go:1259-1267 | scanning a rendered identifier gives it back and stops just past it if and only if it has no back quote |
| ScanEscapes.SlashedRead | internal/parser/tidb/lexer.go:790-817 | every text, written with a backslash before its quote marks, backslashes and control characters, is read back |
| ScanEscapes.EscapesExactly | internal/parser/tidb/lexer.go:790-817 | six letters stand for other characters, percent sign and underscore keep their backslash, and anything else stands for itself |
| ScanFeatures.FeaturesExactly | internal/parser/tidb/lexer.go:972-1016 | accepted are exactly the bracketed, comma-separated, non-empty lists of non-empty names, with these names, up to the bracket |

## Left out

- Digests for binding and plan replay, marker redaction, kept hints and hashing.
- SHOW, SET, CREATE and index statements in the renderer and the normaliser: long fixed mappings.
- Index options of ALTER TABLE specs (type, parser, condition, comment, visibility): copied as they are.
- `Lex`, which turns scanned tokens into parser tokens with the keyword tables, and its look-ahead: the
  keywords that decide whether a hint is recognised are fields set by the caller.
- Multi-byte characters: a character is one byte, and offsets in upper-case text are offsets in the text.
- Flag words: the set of the numbers of their one bits stands for the word.
- Restore, Accept and Format methods of syntax-tree nodes other than the visits modelled.
- Drivers, connectors, logging, encryption and data source names.
- The keyword, character-set and feature tables: parameters of the digester and the scanner.
- Rewinding the reader to look tokens ahead and scanning again: a run here goes through the text once.
- JoinMeaning.PrecedenceExactly: when a join outside the first parentheses is NATURAL or has USING, only one
  direction is proved (`JoinMeaning.PrecedenceKept`), because such a join can hide what the walk changes.
- Flags.Leave: nodes without a rule are one kind with any children, because their own classes do not matter to the rules.
- Translator.TranslatorObject.Translate: parsers, normalisers and renderers are given functions of the text;
  `Translation` puts the statement readers, the normaliser and the renderer of this project in their place, and
  leaves the grammar parser open.
- LimitTurns.TurnedExactly: not said of a text in which trimming white space before the LIMIT uncovers another word
  LIMIT, where a reader would stop; `LimitTurns.PostgresTurned` holds there too.
- AlterEffects.EffectsInOrder: keys, indexes and positions of columns are not part of the table whose columns change.
