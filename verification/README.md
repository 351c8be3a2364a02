# poste: a verified model

poste runs SQL files, redis commands and message-queue requests for an editor. This project models the
parts of it that are easiest to get subtly wrong, in Dafny, and proves what they promise over every
input, every run and every cursor.

**Reading SQL text.** Four hand-written scanners read the same text: the statement splitter, the tokenizer, the
classifier's blanker and the line flagger. `Lexis` says once what a literal, a comment and a terminator is.
`Splitter`, `Tokenizer`, `Blanker` and `LineFlags` hold the loops as the program has them (an index or a sliding
window, a buffer, a list that grows) and tie each to a function. `ScannerSteps` and `ScannerAgreement` prove exactly
when tokenizer and splitter agree, `BlankerAgreement` exactly when the blanker and the splitter do, and
`CodeAgreement` that the classifier sees the splitter's code as long as nothing blanked in a comment runs past its
end. For texts with no stray `$` right before a quote or comment `LineFlags` proves exactly when the flagger is right
about every newline and `FlagMeaning` what every one of its flags says; `StripLines` proves, for every text, exactly
when the line dropping built on it drops the lines it should, and `SplitRoundTrip` that splitting and joining undo
each other. `Classifier` and `LiteralIndependence` prove that what a literal holds cannot change whether a statement
counts as a query. What these functions mean is said once more without them: `LexisMeaning` by units, marks and codes,
`SplitMeaning` by the text and its cuts, `TokenMeaning` by what a token's text is, `StripMeaning` by lines as they are
written, and `ClassifierMeaning` with every dialect's words written out.

**Statements and scope.** `Statements` holds the backward scan, the expansion and the forward scan behind "run the
statement under the cursor", and the one-pass list of all statements. `StatementRanges` proves that the range holds
its cursor and that the list covers every significant token once; `StatementLines` carries that to lines;
`SegmentAgreement` proves exactly when the two computations agree, `StatementWords` which words make one statement in
each, and `LineMeaning` where lines and words stand in the text. `Scope` holds the frame forest of the table resolver,
`TableRefs` and `TableLists` the references and lists of relations after `FROM`, and `ScopeTokens` the resolver
itself, from tokens to the visible scope. `TableEntries` proves which entries of a list are registered and at which
depth, `WithLists` and `WithMeaning` which names a `WITH` gives; `RefMeaning` and `ListMeaning` read the name, schema
and alias of each reference off the shape of its tokens, and `ResolverMeaning` carries that to the resolver.
`ScopeBlocks` proves that the forest is the stack of open query blocks exactly when no `)` meets a set-operation arm,
`ScopeVisibility` which names a cursor sees without `WITH`, `ScopeIsolation` that subqueries and arms are isolated
then, `ScopeWith` what is seen with `WITH` and exactly when an arm is still isolated, and `ScopeCollect` the whole
answer, with aliases, schemas and order. `TokenLookup` leads from a position to a token.

**Protocols.** `WatchSession`, `WatchSafety`, `WatchStop`, `WatchOrder` and `WatchProgress` are the message-queue
session: a registry of consumers, one task for each, a broker and other clients, as a transition system; what every
run keeps, that a watch keeps the order of its deliveries, that every stop can be answered and every session can
close, and that a stopped watch is answered in every run that does not starve it. `Consume` is the one-shot consume
over a channel, `ExecFile` the transaction loop over a connection, `RedisSession` the request loop with its reconnect
and its restored `SELECT`, and for every run exactly when it is on the tracked database.

**Printers and parsers.** `Utf8` has UTF-8 (RFC 3629, section 3), `PercentEncoding` percent-encoding (RFC 3986,
sections 2.1 and 2.3). `ConnectionUrl` and `ConnectionUrlLaws` have the URL written from a config, the ClickHouse
reader, the password mask and the database replacement; `ConnectionUrlMeaning` writes out schemes, default ports and
brackets, and `UrlShapes` says what mask, replacement and reader do to hand-written URLs. `RedisEcho` has the one-line
echo of a redis command and a reader that gets the tokens back.

Where the code departs from what its comments and `docs/schema.md` say, the model follows the code. Each
such place has a concrete input and, where a caller can test for it, the exact condition under which the
promise holds:

- `t--c` is one identifier to the tokenizer and a comment to the splitter, and `E'\'` ends elsewhere in
  Standard mode: `ScannerAgreement.ScannersAgreeIff`, `Departures.DashesInAnIdentifier`,
  `Departures.EscapeInAnELiteral`. `docs/schema.md:264` asks the scanners not to disagree.
- A quoted run that ends in an open escape ends one past the text: `Departures.OvershootIff`,
  `Departures.EscapeAtTheEnd`.
- The blanker knows no comments and keeps an unclosed dollar quote: `BlankerAgreement.BlankingAgreesIff`,
  `CodeAgreement.CodeViewIsTheSplittersCode`, `BlankerAgreement.QuoteInComment`, `BlankerAgreement.OpenDollarStays`.
- The line flagger gives no flag to a newline in a block comment and steps over the character after a
  stray `$`: `LineFlags.FlagsAgreeIff`, `Departures.NewlineInComment`, `Departures.QuoteAfterDollar`.
- The line dropping pairs each line with the flag of the line after it, so data inside a literal can be dropped,
  and with too few flags the last lines are lost: `StripLines.StripIsRightIff`, `StripLines.DataLineDropped`,
  `StripLines.LastLinesLost`, `StripLines.CodeLost`.
- `INSERT … SELECT` is one statement under the cursor and two in the list:
  `Departures.InsertSelectIsTwoInTheList`, `SegmentAgreement.RangesAgreeIff`.
- A `)` closes one frame, so a `UNION` in parentheses leaves its block open and its tables visible behind
  it: `ScopeBlocks.StackIsLexicalIff`, `ScopeIsolation.UnionInParensLeaks`.
- A set-operation arm hides a count of leading tables, so a `WITH` name that stands before a plain table makes
  that table leak into the next arm: `ScopeWith.ArmIsIsolatedIff`, `ScopeWith.IsolatedIffPlainTablesFirst`,
  `ScopeIsolation.WithNameFirstLeaks`.
- A reference `a..b` counts one token too many. It can take a closing parenthesis with it, so a subquery lists
  the relation behind its parenthesis, or a comma, so the relation behind it is not listed:
  `TableEntries.ListAtOneLevelIff`, `TableEntries.StutterLeaks`, `TableEntries.EveryCommaIsReadIff`,
  `TableEntries.SwallowedEntry`.
- A word between `AS` and the body of a `WITH` name hides every name after it: `WithLists.WithNamesFound`,
  `WithLists.MaterializedLosesTheRest`.
- After a failed `SELECT` restore the next redis command runs on the fresh connection's database, until a
  `SELECT` succeeds or another reconnect retries; database 0 is never restored: `RedisSession.TracksIff`,
  `RedisSession.SendsOnTheTrackedDbIff`, `RedisSession.NextCommandOnTheWrongDb`,
  `RedisSession.DatabaseZeroIsNotRestored`.

## Model

| member | source | states |
|---|---|---|
| Splitter.TakeQuoted | crates/poste-core/src/sql_parser.rs:238-267 | the peeking loop over a literal stops where the reference reading of it ends, in both escape modes, also when it never closes |
| Splitter.TakeLineComment | crates/poste-core/src/sql_parser.rs:269-281 | a line comment ends at its newline, which alone is kept |
| Splitter.TakeBlockComment | crates/poste-core/src/sql_parser.rs:283-299 | a block comment runs to the first `*/` or the end |
| Splitter.TakeTag | crates/poste-core/src/sql_parser.rs:304-327 | a tag is recognised exactly when the tag grammar opens one, and a failed tag is plain text |
| Splitter.TakeDollarBody | crates/poste-core/src/sql_parser.rs:328-341 | the sliding window stops at the first copy of the tag, or at the end of the text |
| Splitter.SplitLoop | crates/poste-core/src/sql_parser.rs:229-366 | the loop's list is the trimmed, non-empty pieces between the terminators of the reference reading, and its cuts are exactly those terminators |
| Text.TrimMeans | crates/poste-core/src/sql_parser.rs:348-361 | trimming takes spaces from both ends, all of them, and nothing else |
| LexisMeaning.CharacterClasses | crates/poste-core/src/sql_parser.rs:233-345 | digits, letters, word characters, quotes and ASCII spaces by their codes |
| LexisMeaning.LineCommentMeans | crates/poste-core/src/sql_parser.rs:269-281 | a line comment ends at the first newline |
| LexisMeaning.BlockCommentMeans | crates/poste-core/src/sql_parser.rs:283-299 | a block comment ends behind the first closing mark, or with the text |
| LexisMeaning.TagMeans | crates/poste-core/src/sql_parser.rs:300-327 | a tag is two dollars, or word characters between them that do not begin with a digit |
| LexisMeaning.DollarQuoteMeans | crates/poste-core/src/sql_parser.rs:328-341 | a dollar quote ends behind the first copy of its tag, or with the text |
| LexisMeaning.LiteralReads | crates/poste-core/src/sql_parser.rs:238-267 | a literal written with any characters, doubled quotes and, where a backslash escapes, escaped characters ends at its quote |
| SplitMeaning.StatementsAre | crates/poste-core/src/sql_parser.rs:229-366 | for every text and both modes: the statements are, in order, the non-blank stretches of text between the cuts, without line comments, trimmed |
| SplitMeaning.CutsAre | crates/poste-core/src/sql_parser.rs:229-366 | the cuts are, in order, exactly the semicolons outside literals and comments |
| SplitMeaning.NothingSolidIsLost | crates/poste-core/src/sql_parser.rs:229-366 | the non-space characters of the statements, in order, are those of the text outside line comments and cuts |
| SplitRoundTrip.PiecesAreGood | crates/poste-core/src/sql_parser.rs:229-366 | every piece is non-empty, trimmed, free of top-level terminators, and all but the last leave no literal or comment open |
| SplitRoundTrip.JoinedRescans | crates/poste-core/src/sql_parser.rs:229-366 | any such list joined with `;` splits back into itself |
| SplitRoundTrip.SplitThenJoin | crates/poste-core/src/sql_parser.rs:229-366 | for every text, the statements joined with `;` split into the same statements, though comments were dropped and ends trimmed |
| SplitRoundTrip.EachStatementAlone | crates/poste-core/src/sql_parser.rs:229-366 | each statement of any text splits into itself alone |
| Tokenizer.ScanQuoted | crates/poste-core/src/sql_context/tokenizer.rs:367-386 | the index scan stops where the quoted run ends, one past the text when a final backslash escapes nothing |
| Tokenizer.ScanDollarQuote | crates/poste-core/src/sql_context/tokenizer.rs:417-453 | a dollar quote is found exactly when the grammar opens one, and the jump to the next `$` finds the first copy of the tag |
| Tokenizer.FindClosing | crates/poste-core/src/sql_context/tokenizer.rs:434-452 | jumping from `$` to `$` finds the same closing tag as trying every position |
| Tokenizer.ScanWord | crates/poste-core/src/sql_context/tokenizer.rs:202-249 | identifier and number runs, with the dash an identifier swallows and a number does not |
| Tokenizer.Tokenize | crates/poste-core/src/sql_context/tokenizer.rs:93-343 | the loop's tokens are those of the reference lexemes, in order, with their positions |
| TokenMeaning.TokensMean | crates/poste-core/src/sql_context/tokenizer.rs:93-343 | for every text, mode and keyword set the kind of a token says what its text is: the punctuation mark itself, a maximal run of word characters and dashes, a keyword exactly when it has 2 to 24 characters and its upper case is in the table, a number, a literal, a comment, space |
| TokenMeaning.LiteralTokenEnds | crates/poste-core/src/sql_context/tokenizer.rs:143-172 | the token of a literal or quoted name, however written, ends behind its closing quote; a backslash escapes in Backslash mode, and in a string with `e` or `E` and no word character before it |
| TokenMeaning.MarksHaveTokens | crates/poste-core/src/sql_context/tokenizer.rs:250-289 | each parenthesis, dot, comma and semicolon outside literals and comments has its own token |
| TokenMeaning.OnlyStraysAreSkipped | crates/poste-core/src/sql_context/tokenizer.rs:93-343 | every character that can begin a token or belong to one lies in a token |
| ScannerSteps.QuotedRunAgrees | crates/poste-core/src/sql_context/tokenizer.rs:367-386 | clipped to the text, the tokenizer's quoted run ends where the splitter's does in the same escape mode |
| ScannerSteps.StepAgrees | crates/poste-core/src/sql_context/tokenizer.rs:100-340 | away from the two hazards, one tokenizer step passes exactly the literals, comments and terminators it reports |
| ScannerAgreement.HazardParts | crates/poste-core/src/sql_context/tokenizer.rs:145-206 | at a hazard the two readings differ, whatever follows |
| ScannerAgreement.ScannersAgreeIff | crates/poste-core/src/sql_context/tokenizer.rs:93-453 | for every text and both modes: tokenizer and splitter see the same literals, comments and terminators at the same positions exactly when no identifier swallows `--` and no `E'` literal ends elsewhere |
| ScannerAgreement.SemisAreCuts | crates/poste-core/src/sql_context/tokenizer.rs:93-343 | with no word character before `--` and, in Standard mode, no `E'`, the `;` tokens are exactly the places where the splitter cuts |
| Departures.OvershootIff | crates/poste-core/src/sql_context/tokenizer.rs:367-386 | a quoted run ends one past the text exactly when nothing closes it and an odd number of backslashes ends it |
| Departures.EscapeAtTheEnd | crates/poste-core/src/sql_context/tokenizer.rs:367-386 | with backslash escapes the token of `'\` ends one past the text |
| Departures.DashesInAnIdentifier | crates/poste-core/src/sql_context/tokenizer.rs:202-206 | on `t--;` the tokenizer has a terminator and the splitter does not cut |
| Departures.EscapeInAnELiteral | crates/poste-core/src/sql_context/tokenizer.rs:145-149 | on `E'\';'` the tokenizer has no terminator and the splitter cuts, in Standard mode |
| LineFlags.TopLevelLineStarts | crates/poste-core/src/sql_parser.rs:79-175 | the loop's flags are those of the flagger's own state machine, one more at the end |
| LineFlags.FlagsAgreeIff | crates/poste-core/src/sql_parser.rs:79-175 | on every text in which no stray `$` stands right before a quote or comment: the flag of each newline says whether the Standard splitter is outside every literal there, exactly when no newline stands in a block comment or right after a stray `$` |
| LineFlags.FlagsAgree | crates/poste-core/src/sql_parser.rs:79-175 | then there is one flag for each newline and one more for the end of the text |
| Departures.QuoteAfterDollar | crates/poste-core/src/sql_parser.rs:165-171 | after a stray `$` the flagger misses a quote and calls a newline inside the literal top-level |
| Departures.NewlineInComment | crates/poste-core/src/sql_parser.rs:125-134 | a newline inside a block comment gets no flag |
| FlagMeaning.FlagsMean | crates/poste-core/src/sql_parser.rs:79-175 | with no stray `$` right before a quote or comment, the flags are: for each newline that is neither in a block comment nor right after a stray `$`, whether the splitter is outside every literal there, and then whether it is at the end of the text; so their number is exact |
| StripLines.StripIsRightIff | crates/poste-core/src/sql_parser.rs:54-63 | for every text and every test of lines: exactly the accepted lines that start outside every literal are dropped, exactly when each accepted line has a flag that says where it starts and every line without a flag is such a line |
| StripLines.StripIsRightInSplitterTerms | crates/poste-core/src/sql_parser.rs:54-63 | the same condition on the splitter alone, with no stray `$` right before a quote or comment: the flag of a line is where the splitter stands at the line end of its number, lost newlines not counted |
| StripLines.LastLinesLost | crates/poste-core/src/sql_parser.rs:54-63 | with no stray `$` right before a quote or comment: exactly the last lines, one for each lost newline and one fewer when a newline ends the text, are dropped whatever they say, and any other line exactly when it is accepted and the splitter is outside every literal at its line end |
| StripLines.DataLineDropped | crates/poste-core/src/sql_parser.rs:8-17 | a line of data that ends its literal is dropped when it looks like a directive |
| StripLines.CodeLost | crates/poste-core/src/sql_parser.rs:54-64 | behind a comment of two lines the only line of code is lost |
| StripMeaning.LinesRead | crates/poste-core/src/sql_parser.rs:54-63 | lines written with `\n` or `\r\n`, and text behind the last, read back without their terminators |
| StripMeaning.StripMeans | crates/poste-core/src/sql_parser.rs:54-63 | what is left is, joined with newlines and in order, the lines with no flag set or not accepted; a byte-order mark is no part of the first |
| Blanker.BlankStringLiterals | crates/poste-core/src/sql_parser.rs:390-468 | the in-place loop leaves in the buffer the blanked text, position for position |
| Blanker.RemoveComments | crates/poste-core/src/sql_parser.rs:480-512 | the peeking loop removes comments, keeping a newline or a space for each |
| Blanker.BlankIsIdempotent | crates/poste-core/src/sql_parser.rs:390-468 | blanking keeps the length, and blanking again changes nothing, in both modes |
| BlankerAgreement.BlankingAgreesIff | crates/poste-core/src/sql_parser.rs:390-468 | for every text and both modes, the classifier blanks exactly the literals the splitter sees exactly when every dollar quote is closed and no comment holds a quote or a dollar quote that closes somewhere |
| CodeAgreement.CodeViewIsTheSplittersCode | crates/poste-core/src/sql_parser.rs:375-512 | for every text and both modes, when every dollar quote is closed and whatever is blanked inside a comment ends inside it: the classifier's whole view is the text the splitter's elements leave, literals as spaces, a line comment as its newline, a block comment as one space |
| CodeAgreement.SwallowedEndCanHide | crates/poste-core/src/sql_parser.rs:375-512 | that condition is not necessary: in a text of two comments the blanker runs past the first one's end and the view is right all the same |
| BlankerAgreement.QuoteInComment | crates/poste-core/src/sql_parser.rs:390-418 | a quote in a comment makes the blanker lose the line after it |
| BlankerAgreement.OpenDollarStays | crates/poste-core/src/sql_parser.rs:420-462 | a dollar quote that never closes stays for the blanker and is a literal to the splitter |
| Classifier.GapWidthIrrelevant | crates/poste-exec/src/sql_exec_common.rs:60-70 | the upper-cased view classifies the same whatever the width, two or more, of a run of spaces in it |
| Classifier.ViewsClassifyAlike | crates/poste-exec/src/sql_exec_common.rs:60-70 | so do two views that differ in the width of one gap, also after leading space is trimmed |
| Classifier.DialectsHavePlainPrefixes | crates/poste-exec/src/sql_exec_common.rs:33-49 | the three dialect tables meet the condition the classification results need |
| ClassifierMeaning.SqliteQueryIff | crates/poste-exec/src/sql_exec_common.rs:33-70 | for every statement: a query exactly when the upper-cased code begins with SELECT, WITH, EXPLAIN, PRAGMA or VALUES, or RETURNING stands in it with no word character beside it |
| ClassifierMeaning.PostgresQueryIff | crates/poste-exec/src/sql_exec_common.rs:33-70 | the same with SELECT, WITH, EXPLAIN, SHOW, TABLE and a space, and VALUES |
| ClassifierMeaning.MysqlQueryIff | crates/poste-exec/src/sql_exec_common.rs:33-70 | the same with SELECT, WITH, EXPLAIN, SHOW, DESCRIBE, and DESC and a space, read with backslash escapes |
| ClassifierMeaning.DmlIsAQueryIff | crates/poste-exec/src/sql_exec_common.rs:51-70 | what begins with INSERT, UPDATE or DELETE is a query exactly when RETURNING stands alone; as a part of longer words, `returning_flag`, it makes none |
| ClassifierMeaning.SelectIsAQuery | crates/poste-exec/src/sql_exec_common.rs:60-70 | a statement whose code begins with SELECT in any case is a query in every dialect |
| LiteralIndependence.BlankOfFramed | crates/poste-core/src/sql_parser.rs:390-468 | a literal the blanker reaches becomes spaces of its length, and what stands before and after it is blanked as if alone |
| LiteralIndependence.LiteralContentsDoNotMatter | crates/poste-exec/src/sql_exec_common.rs:60-70 | replacing the inside of a closed literal by any text without its quote, `$` and, under backslash escapes, backslash leaves the classification unchanged |
| Statements.ComputeParenDepths | crates/poste-core/src/sql_context/statements.rs:59-71 | each token's depth is the balance of the parentheses before it |
| Statements.ContinuesSetOperation | crates/poste-core/src/sql_context/statements.rs:78-102 | the backward walk finds a set operator of the keyword's own depth, over trivia and one modifier |
| Statements.FindStart | crates/poste-core/src/sql_context/statements.rs:119-194 | the start is the nearest boundary behind the cursor, expanded through every keyword that contains it |
| Statements.FindEnd | crates/poste-core/src/sql_context/statements.rs:214-243 | the forward scan ends at the first terminator or at the first statement keyword the statement neither claims, contains nor joins by a set operator |
| Statements.FindStatementTokenRange | crates/poste-core/src/sql_context/statements.rs:112-246 | the three loops together compute the range of the reference definition |
| Statements.FindAllTokenRanges | crates/poste-core/src/sql_context/statements.rs:363-407 | the one-pass loop computes the list of the reference definition |
| StatementWords.ArmIff | crates/poste-core/src/sql_context/statements.rs:71-110 | a keyword is an arm exactly when UNION, INTERSECT or EXCEPT of its depth stands before it, over space, comments and at most one ALL or DISTINCT |
| StatementWords.ArmsAreOneRange | crates/poste-core/src/sql_context/statements.rs:112-407 | a statement whose later openers are all arms is one range, from every cursor and in the list |
| StatementWords.OtherSelectStartsARange | crates/poste-core/src/sql_context/statements.rs:112-407 | in a statement of SELECTs, one behind anything else starts a range of its own under the cursor and in the list |
| StatementWords.CursorOfTwo | crates/poste-core/src/sql_context/statements.rs:48-58 | with two openers the cursor's range is one exactly for INSERT/SELECT, INSERT/UPDATE, SELECT/UPDATE, ALTER/DROP and WITH before anything |
| StatementWords.ListOfTwo | crates/poste-core/src/sql_context/statements.rs:384-407 | with two openers the list has one range exactly behind WITH, and for UPDATE behind a word INSERT, SELECT or WITH |
| StatementRanges.ContainsIsTransitive | crates/poste-core/src/sql_context/statements.rs:48-57 | containment of statement keywords is transitive |
| StatementRanges.ExpandPasses | crates/poste-core/src/sql_context/statements.rs:167-194 | every keyword the expansion passes is contained in the one it stops at |
| StatementRanges.RangeHoldsCursor | crates/poste-core/src/sql_context/statements.rs:112-246 | for every cursor on a token: start <= cursor < end, unless the cursor is a terminator outside parentheses, where end or start is the cursor |
| StatementRanges.EveryTokenCoveredOnce | crates/poste-core/src/sql_context/statements.rs:324-407 | every token that is no trivia and no separating `;` lies in exactly one recorded range |
| StatementRanges.SeparatorsAreNotCovered | crates/poste-core/src/sql_context/statements.rs:363-407 | a separating `;` lies in no recorded range |
| StatementRanges.RangesInOrder | crates/poste-core/src/sql_context/statements.rs:363-407 | recorded ranges are non-empty, ascending, disjoint and inside the token list |
| StatementLines.TokensAreInOrder | crates/poste-core/src/sql_context/tokenizer.rs:93-343 | tokens are non-empty, ascending and disjoint, and at most the last runs one past the text |
| StatementLines.TriviaSpellsNothing | crates/poste-core/src/sql_context/tokenizer.rs:102-142 | spaces and comments of any text spell none of the words that bound statements |
| LineMeaning.WordIff | crates/poste-core/src/sql_context/statements.rs:8-46 | a token has a word exactly when its text spells it in any case |
| LineMeaning.LinesStand | crates/poste-core/src/sql_context/statements.rs:427-437 | every line of a buffer stands in the joined text where its computed start says, a newline behind it |
| StatementLines.ByteToLine | crates/poste-core/src/sql_context/statements.rs:439-446 | the reverse search returns the last line that starts at or before the position |
| StatementLines.LaterPositionLaterLine | crates/poste-core/src/sql_context/statements.rs:439-446 | a later position is on the same or a later line |
| StatementLines.LineHoldsPosition | crates/poste-core/src/sql_context/statements.rs:427-446 | the line found starts at or before the position and the next line starts after it |
| StatementLines.FindAllStatementRanges | crates/poste-core/src/sql_context/statements.rs:346-425 | from lines to line ranges, with the answers for no line, one line and no token |
| StatementLines.LineRangesInOrder | crates/poste-core/src/sql_context/statements.rs:346-446 | start_line <= end_line <= the next start_line, all inside the buffer |
| LineMeaning.LineRangesHold | crates/poste-core/src/sql_context/statements.rs:409-425 | a line range begins with the line of its first token and ends with the line in which its last token ends |
| LineMeaning.ShortBuffers | crates/poste-core/src/sql_context/statements.rs:346-366 | no line gives no range; one line, or lines without a token, are one range |
| SegmentAgreement.SegmentsMakeTheList | crates/poste-core/src/sql_context/statements.rs:363-407 | the list is the lists of its `;` segments one after the other |
| SegmentAgreement.RangesAgreeIff | crates/poste-core/src/sql_context/statements.rs:112-407 | in a segment a statement keyword opens, the list records one range and every cursor from the keyword on gets exactly it, exactly when every later statement keyword is an arm or a clause |
| SegmentAgreement.OtherSegmentsAgreeIff | crates/poste-core/src/sql_context/statements.rs:112-407 | in a segment that any other word opens, the list records one range and every cursor gets it, with the trivia in front, exactly when every statement keyword in it is an arm of a set operation |
| Departures.InsertSelectIsTwoInTheList | crates/poste-core/src/sql_context/statements.rs:48-51 | on `INSERT SELECT` the cursor gets both keywords and the list splits them |
| TokenLookup.SkipBack | crates/poste-core/src/sql_context/tokenizer.rs:730-741 | finds the nearest significant token behind, or there is none |
| TokenLookup.SkipForward | crates/poste-core/src/sql_context/tokenizer.rs:763-772 | finds the nearest significant token ahead, or there is none |
| TokenLookup.FindTokenAtOffset | crates/poste-core/src/sql_context/tokenizer.rs:704-727 | if some token holds the offset, that token; otherwise the last significant one |
| TokenLookup.OneTokenHolds | crates/poste-core/src/sql_context/tokenizer.rs:93-343 | at most one token of a text holds an offset |
| Scope.WalkUp | crates/poste-core/src/sql_context/scope.rs:171-194 | the walk over parents ends, at the root, with the merged scopes |
| ScopeTokens.ExtractCteNames | crates/poste-core/src/sql_context/scope.rs:197-263 | the scan over a `WITH` list adds exactly the names of the reference scan, in order, whatever stands in parentheses |
| WithLists.WithNamesFound | crates/poste-core/src/sql_context/scope.rs:197-263 | for every `WITH` followed by a list of definitions and a statement, column lists, comments and `RECURSIVE` included, the scan finds exactly the defined names in order |
| WithMeaning.WithNames | crates/poste-core/src/sql_context/scope.rs:197-263 | the names of a `WITH` over any space and comments, with or without columns, are those of its definitions in order |
| WithMeaning.RecursiveWithNames | crates/poste-core/src/sql_context/scope.rs:197-263 | RECURSIVE is passed over |
| WithMeaning.BodyIsPassed | crates/poste-core/src/sql_context/scope.rs:218-231 | once a name is found, AS and its parenthesis are passed over whole, so a keyword used for a name does not end the list |
| WithLists.MaterializedLosesTheRest | crates/poste-core/src/sql_context/scope.rs:197-263 | a word between `AS` and the body makes the scan stop inside the body and lose the next name |
| ScopeTokens.RegisterKeyword | crates/poste-core/src/sql_context/scope.rs:134-155 | a keyword puts the names of its `WITH` list and of its table list into its block, but not the `UPDATE` of an upsert |
| ScopeTokens.AdvanceToken | crates/poste-core/src/sql_context/scope.rs:94-158 | one turn of the scan takes the frame forest to the next state of the reference scan, which keeps every parent index smaller than its child's |
| ScopeTokens.ResolveTokens | crates/poste-core/src/sql_context/scope.rs:82-195 | the whole resolver from tokens to visible scope, with and without a cursor, for every reference parser that makes progress |
| ScopeTokens.ResolveScopeAt | crates/poste-core/src/sql_context/scope.rs:82-195 | the same with the reference parser it has |
| ResolverMeaning.ItemMeans | crates/poste-core/src/sql_context/scope.rs:94-157 | parentheses open and close a block, UNION, INTERSECT and EXCEPT start an arm, and a keyword names something only if it is WITH or a relation word |
| ResolverMeaning.WithEndsIff | crates/poste-core/src/sql_context/scope.rs:197-225 | once a name is found a WITH list ends exactly at the ten statement words |
| ResolverMeaning.UpsertIff | crates/poste-core/src/sql_context/tokenizer.rs:747-760 | an UPDATE names a column exactly when ON, DUPLICATE and KEY stand before it over space and comments |
| ResolverMeaning.ListedMeans | crates/poste-core/src/sql_context/scope.rs:146-155 | each of the eleven relation words that is no upsert registers what the list behind it says |
| ResolverMeaning.ResolverLists | crates/poste-core/src/sql_context/scope.rs:82-195 | in a statement with one relation list the resolver lists, from every cursor, exactly its relations with name, alias and schema, in order |
| ResolverMeaning.FromUsersU | crates/poste-core/src/sql_context/scope.rs:82-195 | `FROM users u` lists the table `users` with alias `u` |
| ScopeBlocks.TopIsInnermost | crates/poste-core/src/sql_context/scope.rs:102-132 | at every position the top frame is the frame of the innermost block of the stack |
| ScopeBlocks.ParentIsOuter | crates/poste-core/src/sql_context/scope.rs:65-75 | in the final forest a block's parent is the frame of the block around it, and its hidden count is still the one it was opened with |
| ScopeBlocks.SlotsDiffer | crates/poste-core/src/sql_context/scope.rs:65-75 | different blocks have different frames |
| ScopeBlocks.StackIsLexicalIff | crates/poste-core/src/sql_context/scope.rs:102-132 | the frames follow the open blocks of the text at every position exactly when no `)` is met while an arm is innermost |
| ScopeVisibility.BlockTables | crates/poste-core/src/sql_context/scope.rs:134-155 | what a frame holds is exactly the names its block has declared so far |
| ScopeVisibility.ArmHidesAll | crates/poste-core/src/sql_context/scope.rs:123-132 | without `WITH`, an arm hides every table its parent ever holds |
| ScopeVisibility.VisibleTables | crates/poste-core/src/sql_context/scope.rs:82-195 | without `WITH` and with no `)` meeting an arm: a cursor sees a name exactly when an open block, not just outside an arm, declares it somewhere |
| ScopeCollect.ResolverCollects | crates/poste-core/src/sql_context/scope.rs:82-195 | with or without `WITH`, with no `)` meeting an arm: the resolver's whole answer, every alias, schema, `WITH` name and their order, is what the blocks open around the cursor declare, innermost first, less what an arm hides of the block it splits |
| ScopeCollect.VisibleRefs | crates/poste-core/src/sql_context/scope.rs:82-195 | without `WITH`, with no `)` meeting an arm, for every reference: a cursor sees it with exactly this alias and schema exactly when an open block, not just outside an arm, lists it so, a bare name also as the alias of a derived table whose name nothing had before |
| ScopeCollect.VisibleCtes | crates/poste-core/src/sql_context/scope.rs:174-195 | when no closing parenthesis meets an arm: a cursor sees each `WITH` name of the blocks open around it, and each once |
| ScopeIsolation.SubqueryScoping | crates/poste-core/src/sql_context/scope.rs:82-195 | without set operators and `WITH`, for any parentheses: a cursor sees exactly the tables of the parentheses open around it |
| ScopeIsolation.TopLevelArmsStay | crates/poste-core/src/sql_context/scope.rs:113-132 | balanced parentheses with operators outside them never have a `)` meet an arm |
| ScopeIsolation.EarlierArmsHidden | crates/poste-core/src/sql_context/scope.rs:123-192 | after an operator, also in the arm's subqueries, every visible name is declared after that operator |
| ScopeIsolation.NoTableOfEarlierArms | crates/poste-core/src/sql_context/scope.rs:123-192 | so the resolver lists no name that only earlier arms mention |
| ScopeWith.VisibleTablesWith | crates/poste-core/src/sql_context/scope.rs:82-195 | with or without `WITH`, with no `)` meeting an arm: a cursor sees a name exactly when a block open around it names it, counting of a block that an arm splits only what the skipped prefix leaves |
| ScopeWith.NothingMisplacedIff | crates/poste-core/src/sql_context/scope.rs:52-57 | no name is on the wrong side of the skipped prefix exactly when every plain table stands before every `WITH` name |
| ScopeWith.ArmSees | crates/poste-core/src/sql_context/scope.rs:123-192 | after an operator, also in the arm's subqueries, the resolver lists a name exactly when the cursor's own side names it or the first arm leaves it of the statement's list |
| ScopeWith.ArmIsIsolatedIff | crates/poste-core/src/sql_context/scope.rs:123-192 | so a cursor there sees nothing of the earlier `FROM` lists and every `WITH` name exactly when every name on the wrong side of the skipped prefix is named again on its own side |
| ScopeWith.PlainTablesFirstIsolates | crates/poste-core/src/sql_context/scope.rs:123-192 | a statement that lists its plain tables before its `WITH` names isolates every arm |
| ScopeWith.IsolatedIffPlainTablesFirst | crates/poste-core/src/sql_context/scope.rs:123-192 | for an arm that shares no name with the statement's list that is also necessary |
| ScopeIsolation.WithNameFirstLeaks | crates/poste-core/src/sql_context/scope.rs:175-192 | a statement whose `FROM` lists its `WITH` name first leaks the other table into the next arm and hides the `WITH` name |
| ScopeIsolation.UnionInParensLeaks | crates/poste-core/src/sql_context/scope.rs:113-115 | behind a closed parenthesis that held a `UNION` the resolver still lists the table of the closed subquery |
| TableLists.MatchingRParen | crates/poste-core/src/sql_context/scope.rs:414-431 | the counting loop returns the first place where the depth is back to what it was before the parenthesis, or nothing |
| TableLists.InsideIsDeeper | crates/poste-core/src/sql_context/scope.rs:414-431 | everything before that place is deeper |
| TableLists.RegisterTableList | crates/poste-core/src/sql_context/scope.rs:311-381 | the loop ends for every reference parser that takes at least one token, and adds exactly the listed entries in order |
| ListMeaning.ListMeans | crates/poste-core/src/sql_context/scope.rs:311-431 | a comma list of `x`, `y.x`, `z.y.x`, derived tables and calls, each with or without alias, LATERAL and ONLY, registers each name, schema and alias as it stands, in order |
| ListMeaning.DerivedNameIff | crates/poste-core/src/sql_context/scope.rs:433-456 | exactly which token behind a parenthesis is the alias of a derived table |
| ResolverMeaning.ListStops | crates/poste-core/src/sql_context/scope.rs:324-332 | a list ends where one of the thirteen clause words stands |
| TableRefs.ParseTableRef | crates/poste-core/src/sql_context/tables.rs:14-160 | the reference parser computes the reference definition, with its loop over dots, for every token and every qualification |
| RefMeaning.ReferenceMeans | crates/poste-core/src/sql_context/tables.rs:14-160 | over any space and comments: the name is the last of one, two or three names, the schema the one before it, the alias the free name that follows with or without AS, and the reference ends with the last of them |
| RefMeaning.NameBehindIff | crates/poste-core/src/sql_context/tables.rs:137-199 | exactly which name behind a reference is its alias, known keywords and clause words included |
| RefMeaning.StutterMeans | crates/poste-core/src/sql_context/tables.rs:107-133 | `a..b` is `b` in schema `a`, with its consumed count one too many |
| RefMeaning.IfExistsIsPassed | crates/poste-core/src/sql_context/tables.rs:34-52 | IF EXISTS is passed over |
| TableRefs.ReferenceParens | crates/poste-core/src/sql_context/tables.rs:14-160 | a reference takes no parenthesis and no comma, but for the one token that `a..b` counts too many |
| TableEntries.EveryCommaIsReadIff | crates/poste-core/src/sql_context/scope.rs:311-381 | for every token list: no element passes over a comma of its own depth, so every entry is read, exactly when no `a..b` stands directly before a comma |
| TableEntries.EveryEntryIsListed | crates/poste-core/src/sql_context/scope.rs:311-381 | in a list without an `a..b` directly before a comma or a parenthesis: behind every comma of the list's depth, up to where the list stops, whatever the element there names is registered |
| TableEntries.SwallowedEntry | crates/poste-core/src/sql_context/tables.rs:107-133 | in `a..b,c` only `b` is listed |
| TableEntries.ListAtOneLevelIff | crates/poste-core/src/sql_context/scope.rs:311-381 | for every token list: everything registered stands at the depth the list starts at, nothing inside a derived table or an argument list, exactly when no `a..b` takes a parenthesis and is followed by something to list |
| TableEntries.StutterLeaks | crates/poste-core/src/sql_context/tables.rs:107-133 | in `(… FROM a..b), c` the list inside the parentheses registers the outer `c` |
| WatchSafety.ActConserves | crates/poste-cli/src/mq_session.rs:181-237 | a forwarder's step moves messages between it and its queue and neither loses nor invents one |
| WatchSafety.StepAccounts | crates/poste-cli/src/mq_session.rs:111-318 | every step of tasks, broker, other clients and request loop keeps every message in exactly one place and every watch within its cap |
| WatchSafety.RunAccounts | crates/poste-cli/src/mq_session.rs:39-318 | so does every reachable state of every run; no consumer ever holds more than 500, the prefetch the broker is asked to honour |
| WatchStop.StepSupervised | crates/poste-cli/src/mq_session.rs:238-272 | every forwarder that has not finished is in the registry, being joined or being drained |
| WatchStop.WatchesForwardOnce | crates/poste-cli/src/mq_session.rs:181-272 | in every run no watch forwards a message twice, and after the reply to a stop its forwarder neither forwards nor requeues |
| WatchStop.QueueIsWhole | crates/poste-cli/src/mq_session.rs:227-237 | once a queue's forwarders are finished with nothing unread and nothing unsettled, every message is back or was taken |
| WatchStop.ClosedSessionHoldsNothing | crates/poste-cli/src/mq_session.rs:314-318 | a closed session has no live forwarder and holds no message, whatever cancels, acks and requeues failed |
| WatchStop.WatchIsNonDestructive | crates/poste-cli/src/mq_session.rs:24-28 | with no other taker and no ack-mode consumer, a closed session, or a stopped watch with an empty buffer, leaves the queue with everything published to it |
| WatchStop.StopMakesProgress | crates/poste-cli/src/mq_session.rs:181-265 | a signalled forwarder always has a step, and each of its steps brings it closer to its end |
| WatchOrder.WatchesKeepOrder | crates/poste-cli/src/mq_session.rs:175-237 | in every run a watch forwards deliveries in their order, skipping none, and puts them back in that order; while the session is open a requeue watch has put back the oldest, holds the next and has the youngest unread |
| WatchOrder.DeliverIff | crates/poste-cli/src/mq_session.rs:37-40 | the broker delivers a waiting message exactly to a registered consumer that holds fewer than 500 |
| WatchOrder.NothingAfterCancel | crates/poste-cli/src/mq_session.rs:214-237 | in every run, after a cancel that succeeded the broker delivers nothing more to that watch |
| WatchOrder.CancelComesFirst | crates/poste-cli/src/mq_session.rs:221-237 | in every run a watch cancels its consumer before it puts anything back |
| WatchProgress.EveryStopCanBeAnswered | crates/poste-cli/src/mq_session.rs:255-272 | in every run, from every state in which a stop is awaited, a finite sequence of enabled steps leads to the reply to that stop |
| WatchProgress.ForwarderStepsBounded | crates/poste-cli/src/mq_session.rs:175-237 | in every run a watch in requeue mode and the broker serving it take at most 2600 steps |
| WatchProgress.StopOfAWatchIsAnswered | crates/poste-cli/src/mq_session.rs:255-272 | in every run that does not starve the forwarder of a stopped watch in requeue mode, whatever the broker delivers, the loop waits for it, it finishes, and then the reply is what is left to do |
| WatchProgress.EverySessionCanClose | crates/poste-cli/src/mq_session.rs:314-318 | in every run, from every state after the input has ended, a finite sequence of enabled steps leads to the closed session |
| Consume.Channel.Drain | crates/poste-exec/src/mq_executor.rs:345-355 | the get loop takes the first min(count, depth) messages before settling any |
| Consume.Channel.SettleAll | crates/poste-exec/src/mq_executor.rs:356-370 | settling returns or removes exactly a prefix of what was taken, all of it on success |
| Consume.Channel.OpConsume | crates/poste-exec/src/mq_executor.rs:330-376 | on success the first min(count, depth) messages, a peek leaving the queue's multiset as it was and an ack removing exactly them; on failure nothing is lost in a peek, and in ack mode a prefix is gone and the rest is held or waiting |
| ExecFile.Recorder.RecordOk | crates/poste-cli/src/exec_file.rs:372-389 | the counters stay equal to what the event stream counts |
| ExecFile.Recorder.RecordErr | crates/poste-cli/src/exec_file.rs:395-407 | the counters stay equal to what the event stream counts |
| ExecFile.Connection.Execute | crates/poste-cli/src/exec_file.rs:428-521 | outside a transaction what a statement leaves is committed at once, inside one it is not; a `COMMIT` in the file that succeeds makes what stands before it permanent |
| ExecFile.RunStatement | crates/poste-cli/src/exec_file.rs:455-493 | one progress event and one result with the same number, and the database moved as the engine says |
| ExecFile.RunAll | crates/poste-cli/src/exec_file.rs:455-504 | in a transaction the first failure rolls back and ends the run; otherwise every statement runs |
| ExecFile.ExecSqlite | crates/poste-cli/src/exec_file.rs:428-521 | without control statements, over every list and every failure point: in transaction mode the committed state is the initial one when anything failed, the commit included and even if the rollback fails, and the in-order result otherwise; nothing runs after the first error; otherwise every statement has its result |
| ExecFile.StreamIsNumbered | crates/poste-cli/src/exec_file.rs:455-493 | statement k has its progress event and its result side by side, both numbered k, with no gap |
| ExecFile.ExecFile | crates/poste-cli/src/exec_file.rs:79-138 | empty and `USE` statements are dropped before numbering; the summary's counters are the stream's; without control statements a file whose `rolled_back` is set leaves the database as it was, and without it every statement ran |
| ExecFile.SkippableIff | crates/poste-exec/src/sql_exec_common.rs:72-78 | a statement is skipped exactly when it is all space, or what is between the space around it is `USE` |
| ExecFile.ExecutableAdds | crates/poste-cli/src/exec_file.rs:79-138 | each statement is kept or skipped for itself, and what is kept stays in order |
| ExecFile.OneKept | crates/poste-cli/src/exec_file.rs:95-100 | one statement alone is kept unless it is skippable |
| ExecFile.CountersAdd | crates/poste-cli/src/exec_file.rs:372-407 | every event adds itself to the counters of its kind and nothing else |
| RedisSession.Session.ServeCommand | crates/poste-cli/src/redis_session.rs:130-214 | the attempt, rescue, restore and retry of one request, for every outcome of each |
| RedisSession.Session.Execute | crates/poste-cli/src/redis_session.rs:107-229 | the loop over all lines computes the run of the reference definition |
| RedisSession.RepliesAndRetries | crates/poste-cli/src/redis_session.rs:107-229 | one reply for each non-blank line, at most two sends, and after a failed restore an error and no retry |
| RedisSession.LineMeans | crates/poste-cli/src/redis_session.rs:107-229 | exactly when a command is sent again, when its restore fails, what is answered and which database is noted |
| RedisSession.CommandsRunOnTheTrackedDb | crates/poste-cli/src/redis_session.rs:130-214 | with a URL that names no database (or no request for database 0), as long as no restore has failed, every command goes out on a connection on the tracked database |
| RedisSession.RetryIsOnTrackedDbIff | crates/poste-cli/src/redis_session.rs:163-165 | a retry is on the tracked database exactly when that is not 0 on a URL that names another |
| RedisSession.FailedRestoreMisplacesIff | crates/poste-cli/src/redis_session.rs:156-194 | after a failed restore on a live connection the session is on the tracked database exactly when that is the URL's |
| RedisSession.TracksIff | crates/poste-cli/src/redis_session.rs:107-229 | in every run, for every URL, every selected database and every failure: a live session is on the tracked database exactly when the last line that moved either left it there, which the record of that line alone says |
| RedisSession.SendsOnTheTrackedDbIff | crates/poste-cli/src/redis_session.rs:107-229 | so a command goes out on the tracked database exactly when the session stands so before it, and a retry exactly unless 0 is tracked on a URL that names another |
| RedisSession.TrackingRegainedIff | crates/poste-cli/src/redis_session.rs:107-229 | derived for runs that do not ask for database 0 on a URL that names another: after a failed restore and until another one, a live session is on the tracked database exactly when some later line was a `SELECT` that succeeded or a retry on a new connection, or the tracked database is the URL's |
| RedisSession.NextCommandOnTheWrongDb | crates/poste-cli/src/redis_session.rs:156-194 | a run in which the command after a failed restore succeeds on database 0 while 3 is tracked |
| RedisSession.DatabaseZeroIsNotRestored | crates/poste-cli/src/redis_session.rs:163-165 | a run with a URL that names database 5 in which the retry goes out on 5 while 0 is tracked |
| Utf8.DecodeEncode | crates/poste-exec/src/sql_executor/clickhouse.rs:55-70 | decoding the UTF-8 of any text gives the text |
| Utf8.EncodedForms | crates/poste-exec/src/sql_connection.rs:15-47 | the one- to four-byte forms of RFC 3629, section 3, with the bits they carry |
| Utf8.DecodesIff | crates/poste-exec/src/sql_executor/clickhouse.rs:55-70 | bytes decode exactly when they are the encoding of a text: no longer form and no other bytes are accepted |
| PercentEncoding.PercentRoundTrip | crates/poste-exec/src/sql_connection.rs:15-47 | percent-decoding undoes percent-encoding for all bytes |
| PercentEncoding.PercentForms | crates/poste-exec/src/sql_connection.rs:15-47 | the unreserved bytes by code stand for themselves, any other is `%` and two upper-case hex digits |
| PercentEncoding.DecodeForms | crates/poste-exec/src/sql_executor/clickhouse.rs:55-70 | two hex digits of either case behind `%` decode to one byte, any other `%` to itself |
| PercentEncoding.EncodedIsSafe | crates/poste-exec/src/sql_connection.rs:15-47 | encoded text holds unreserved characters and `%` only |
| PercentEncoding.EncodeIsIdentityIff | crates/poste-exec/src/sql_connection.rs:15-47 | encoding leaves exactly the unreserved texts unchanged |
| ConnectionUrlLaws.PortReads | crates/poste-exec/src/sql_executor/clickhouse.rs:51-54 | every 16-bit port, printed in decimal, parses to itself |
| ConnectionUrlLaws.ReadsBack | crates/poste-exec/src/sql_connection.rs:206-254 | a ClickHouse URL built from fields reads back as address, user, password and database |
| ConnectionUrlLaws.RoundTripIff | crates/poste-exec/src/sql_executor/clickhouse.rs:36-81 | it does so for every user, password and database exactly when the host has no `/` and no `@` |
| ConnectionUrlMeaning.HostMeans | crates/poste-exec/src/sql_connection.rs:180-202 | a host gets brackets exactly when it has a colon and nothing but hex digits and colons |
| ConnectionUrlMeaning.DialectMeans | crates/poste-exec/src/sql_connection.rs:153-160 | which names stand for postgres and for mysql |
| ConnectionUrlMeaning.ServerUrls | crates/poste-exec/src/sql_connection.rs:206-254 | without a port the URL names 5432 for postgres, 3306 for mysql, 8123 for ClickHouse and 1433 for SQL Server |
| ConnectionUrlMeaning.GivenUrl | crates/poste-exec/src/sql_connection.rs:206-216 | a raw URL that is not empty is the URL |
| ConnectionUrlMeaning.GivenPort | crates/poste-exec/src/sql_connection.rs:206-254 | a given port is written in decimal and reads back |
| ConnectionUrlMeaning.PortReadsIff | crates/poste-exec/src/sql_executor/clickhouse.rs:51-54 | a decimal number is read as a port exactly if it fits 16 bits, also behind a plus sign |
| ConnectionUrlMeaning.SqliteUrls | crates/poste-exec/src/sql_connection.rs:162-178 | a SQLite path gets `mode=rwc` behind `?` or `&` unless its query names a mode; no path is memory |
| UrlShapes.HostAloneReads | crates/poste-exec/src/sql_executor/clickhouse.rs:36-81 | a host alone reads as port 8123, user `default`, no password and no database |
| UrlShapes.PlaceReads | crates/poste-exec/src/sql_executor/clickhouse.rs:44-55 | a port that cannot be read is 8123, and the database ends where a query begins |
| UrlShapes.OtherSchemesAreRefused | crates/poste-exec/src/sql_executor/clickhouse.rs:36-42 | exactly the texts that do not begin with `clickhouse://` are refused |
| ConnectionUrlLaws.MaskedUrl | crates/poste-core/src/request.rs:66-92 | masking a built URL keeps the user, writes four stars for the password and shows nothing else of it, for every host |
| ConnectionUrlLaws.MaskHidesPassword | crates/poste-core/src/request.rs:66-92 | configs that differ in the password only mask to the same text |
| UrlShapes.SecretIsMasked | crates/poste-core/src/request.rs:66-92 | in any URL a password in the authority is masked from the first colon to the last `@` |
| UrlShapes.SecretWithASlashIsMasked | crates/poste-core/src/request.rs:66-108 | a password with a `/` is masked whole if it does not look like a port before the `/` |
| UrlShapes.PortIsNoSecret | crates/poste-core/src/request.rs:66-108 | a host with or without a port stays as it is, whatever follows it |
| UrlShapes.UserAloneStays | crates/poste-core/src/request.rs:66-92 | a user without a password stays as it is |
| ConnectionUrlLaws.ReplaceCommutesIff | crates/poste-core/src/request.rs:115-130 | for a host without `?` and `#`, replacing the database of a built URL is building it with that database exactly for unreserved names |
| UrlShapes.DatabaseIsReplaced | crates/poste-core/src/request.rs:115-130 | in any URL the database is what follows the last slash before the query, and the query stays |
| UrlShapes.NoUrlIsLeftAlone | crates/poste-core/src/request.rs:66-130 | text without `://` is left alone by mask and replacement |
| RedisEcho.WriteToken | crates/poste-exec/src/redis_executor.rs:30-63 | the escaping loop writes the reference form of a token |
| RedisEcho.PlainEchoIff | crates/poste-exec/src/redis_executor.rs:30-36 | a token echoes as itself exactly when it is not empty and has no space, quote, backslash or control character |
| RedisEcho.EscapeForms | crates/poste-exec/src/redis_executor.rs:37-63 | the escape of each character by its code |
| RedisEcho.CommandBack | crates/poste-exec/src/redis_executor.rs:22-63 | reading an echo gives back the bytes of every token |
| RedisEcho.EchoIsInjective | crates/poste-exec/src/redis_executor.rs:22-63 | different token lists have different echoes |
| RedisEcho.EchoIsOneLine | crates/poste-exec/src/redis_executor.rs:22-63 | an echo holds no newline and no other control character |

## Left out

- Bytes against characters: positions in SQL text count characters, where the tokenizer and the line table count bytes; every delimiter is ASCII, so the readings are the same.
- The keyword list of `is_known_keyword` is a parameter, and so are the Unicode upper-case and alphanumeric tables of the classifier; the results hold for every keyword set and every table that treats the space as a space, and those of `ClassifierMeaning` for every table that is right about ASCII.
- The regular expressions of `strip_directives` and `strip_directives_and_sections`: which lines they accept is a parameter of `StripLines`.
- Scope: the text a token displays and whether it is a known keyword come with the token, and an empty quoted name ends a list as it does in the source.
- TableLists.ListAtOneLevel: holds for any reference parser that runs over no parenthesis; the one the resolver has can, and `TableEntries.ListAtOneLevelIff` says exactly when the result then fails.
- ScopeVisibility.VisibleTables: about names and statements without `WITH`; aliases, schemas and `WITH` are in `ScopeCollect` and `ScopeWith`.
- `find_statement_span_with`: the line span under the cursor trims trailing comments that the list keeps, so only the token ranges are compared.
- LineFlags.FlagsAgreeIff: about texts in which no stray `$` stands right before a quote or a comment; behind such a `$` the flagger reads on in the wrong place and can be right by accident.
- WatchProgress.StopOfAWatchIsAnswered: about watches in requeue mode; a consumer in ack mode settles as it goes, so a broker that delivers for ever can keep it busy, and for it only `WatchProgress.EveryStopCanBeAnswered` holds.
- CodeAgreement.CodeViewIsTheSplittersCode: one direction; where something blanked runs past the end of its comment the view can be right by accident, as `CodeAgreement.SwallowedEndCanHide` shows.
- StripLines.LastLinesLost: about texts in which no stray `$` stands right before a quote or a comment, as `LineFlags.FlagsAgreeIff`.
- Watch session: the tasks, the broker and the request loop are one transition system on values rather than objects updated in place, since the point is every interleaving; the order of messages in a queue is not modelled.
- Watch session: deliveries that the client library has buffered and the loop has not read when it stops stay unsettled until the connection closes; nothing is claimed of an open session before that unless the buffer is empty.
- Watch session: `consumer_start_target` and the JSON of requests and replies; a lost input stream that ends the process without a drain.
- ExecFile.ExecSqlite: promises all-or-nothing only for files without `BEGIN`, `COMMIT` or `ROLLBACK`; a `COMMIT` in the file makes what stands before it permanent, as `ExecFile.Connection.Execute` says.
- The MySQL, PostgreSQL, SQL Server and ClickHouse copies of the exec loop, which have the same shape or do less.
- What a statement does to the database, which statements are `USE`, timeouts and row conversion: parameters of the loop, different at every position if need be.
- Redis session: `MULTI`, `RESET` and scripts that change the selected database behind the session's back; a connection whose command timed out counts as dead.
- `decode_utf8_lossy` on bytes that are not UTF-8 is a parameter; the round trip never meets such bytes.
- Raw `url` entries are passed through by the URL writer.
- Drivers, sockets, HTTP, standard input and output, JSON encoding, clocks and latencies.
- Completion contexts and detectors, dialect and DDL templates, introspection queries, function tables and cell conversion: no specification beyond their own branches.
