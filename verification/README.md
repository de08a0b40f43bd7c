# A verified model of Vejas

Vejas is an integration runtime: flows written in VejasScript consume messages at least once, emit
others on a NATS bus and acknowledge their sources only after the server has read what they emitted.
This project models the parts of it where correctness is hardest to see and proves what they promise.
`dafny verify dfyconfig.toml` checks all of it. Every lemma switches Dafny's automatic induction off: what is
proved by induction says so in its body.

- **VejasScript, running** (`VjsSyntax`, `VjsPure`, `VjsEngine`, `VjsTheorems`, `VjsLaws`, `VjsStmtLaws`,
  `VjsExports`, `VjsWrites`). A pure evaluator is the meaning of a program, and laws say what it makes of every
  expression and statement by the values of their parts. The engine is a class with the interpreter's own fields: the pipeline a filter
  overwrites and restores, the emissions, the depth, the calling package and the two caches. Every method
  of it is proved to give what the pure evaluator gives. The static write analysis, which is exact about the
  text of a program and sound about its runs, the secrecy of shadow runs and the export discipline are theorems.
- **VejasScript, parsing** (`VjsParser`, `VjsProgram`, `VjsParserRun`, `VjsPratt`, `VjsLexer`,
  `VjsLexerRun`, `VjsLists`, `VjsStmtPrint`, `VjsProgramPrint`, `VjsWords`, `VjsLayout`). Lexer and parser, as functions and
  as the loops that move an index. Printing and parsing are inverse for exactly the trees the parser can give,
  for expressions, statements and programs, down to the characters of a text.
- **VejasScript, editing** (`VjsLocal`, `VjsBrackets`, `VjsSplice`, `VjsRelex`, `VjsJson`, `VjsEdit`,
  `VjsEditProof`, `VjsEditAdd`, `VjsGlued`, `VjsEditTheorem`, `VjsEditRun`, `VjsSpan`,
  `VjsReadings`, `VjsFits`, `VjsUnreadable`, `VjsUnreadEntry`, `VjsDuplicates`). Rewriting one literal of the
  business surface in the source text: what is read back, what else stays as it was, and when the edit is
  refused; also what text an edit replaces, and where a literal reads as something else than the same
  text does as an expression. It rests on two facts about the parser: a parse looks no further than the
  token after it, and the attempt to read a literal never leaves its bracket.
- **Delivery** (`Link`, `LinkLive`, `Flow`, `FlowLive`, `Detect`, `MqSource`). The shared connection with its
  epoch and barrier, the flow loop on top of it, what both can always still bring about, the detect unit's snapshots, and the IBM MQ source. The first three are state
  machines, because threads, server and connection interleave freely; the MQ source is one loop on a
  broker object.
- **Coordination** (`Lease`, `Governed`, `GovernedLaws`, `Fnv`). The singleton lease, version overlays, the proposal
  queue and the hash they are pinned by.
- **Codecs** (`Csv`, `Mqtt`, `Civil`). The Salesforce CSV writer and reader, MQTT 3.1.1 framing, and the
  civil date of a time stamp.

## Findings

Where a promise does not hold everywhere, the model keeps the code as it is, shows a run or an input and
proves exactly when the promise does hold.

- Two drivers can run under one lease, after an age-out (`Lease.AgedOutOverlap`) and because a guard deletes
  the key without looking at its revision (`Lease.DeletedOverlap`). They can exactly when a key is lost while
  a driver runs (`Lease.ExclusionExact`). What always holds is fencing (`Lease.LeaseFencing`).
- A message of a detect unit whose delivery is lost leaves no trace in `retrying`; the next snapshot then
  stands for it although it was never fed (`Detect.SkippedDeliveryIsLost`, exactly:
  `Detect.SaveCoversIffNoGap`). A first snapshot that fails to be written loses what is acked before the next
  one (`Detect.FirstSnapshotFails`, exactly: `Detect.FirstAttemptExact`).
- Two units whose names differ only where neither has a letter or a digit share a version key, and a promote
  of one reaches the other (`Governed.KeysEqual`, `Governed.PromoteSeen`, `Governed.Isolated`; a run:
  `Governed.KeysCollide`). An instance outside the cluster that is under an overlay edits its file although
  the evidence was the overlay (`Governed.ApprovalEditsTheEvidence`; a run:
  `Governed.ApprovalMissesTheOverlay`).
- Setting an entry edits the first one of its key, while reading takes the last
  (`VjsDuplicates.LaterEntryWins`, exactly: `VjsEditProof.EntryEdit`, `VjsSplice.MapOfReplaced`).
- A string with a control character such as CR is written as an escape the lexer does not read back, and a
  number with an exponent takes its constant off the surface although the edit succeeds
  (`VjsUnreadable.ExponentGoes`). For whole constants, for entries and for added keys this is exact
  (`VjsUnreadEntry.ReadBackExact`). An exponent written directly before the next key, as in `{a: 1b: 2}`,
  becomes part of that key: `a` gets the number without it, and `b` is renamed (`VjsUnreadEntry.RunOnEdit`).
- A comment behind a literal is replaced with it, and only a comment makes the edit replace more than the
  literal (`VjsSpan.CommentIsReplaced`, `VjsSpan.ConstSpanExact`, `VjsSpan.EntrySpanExact`).
- Commas between the elements of a list are optional, so `[5 - 3]` has two elements in a surface constant and
  one elsewhere (`VjsReadings.MinusInList`). Some literals are no expression at all: in `{a: [1 [2, 3]], a: 2}` a
  hidden value is no index (`VjsFits.HiddenBreaks`), and in `{a: 1 and: 2}` the key is an operator
  (`VjsFits.OperatorIsKey`). Exactly: the tokens are an expression if and only if every list directly behind
  an element could be an index and no operator word is directly behind a value, and the readings then agree if
  and only if no element that counts is directly followed by `-` or `[` (`VjsFits.ReadingsExact`).
- With no columns at all the CSV of n rows reads back as n + 1 records of one empty field
  (`Csv.CsvRoundTrip`). An MQTT topic over 65,535 bytes is cut on the wire (`Mqtt.PublishRoundTrip`), and a
  body from 268,435,456 bytes on is written but cannot be read (`Mqtt.FrameRoundTrip`).

## Assumptions

- One connection is first-in first-out; a replaced connection may lose any unread suffix, or have it read
  late; the epoch has moved before anything is sent on the new connection (`Link`).
- The strict JSON reader is kept abstract. `VjsEditAdd.Strict` says what is used of it: an object it accepts
  starts and ends with its braces, has no comment and no trailing comma, and is empty exactly when only white
  space is between the braces (sections 2 and 4 of RFC 8259).
- Builtins other than `secret`, the JSON text of a value for display, string order and containment are
  parameters of a run (`VjsSyntax.Prims`), as are the files, the secret store and the parser (`VjsSyntax.World`).
- A durable consumer delivers again what it has no ack for (`Flow`).
- Governed operations are atomic and their writes succeed; the hash, the literal editor and the parser are
  parameters there (`Governed.Tools`).

## Model

| member | source | states |
|---|---|---|
| `VjsEngine.Eval` | core/src/vjs.rs:1582-1791 | the mutating evaluator gives what the pure one gives: same value or error, `ctx.emits` only extended by the pure run's emissions, `ctx.vars` back to what it was on success, `depth`, `caller_pkg` and the caches restored on success and on every error path; terminates by remaining depth, then syntax |
| `VjsEngine.EvalInvoke` | core/src/vjs.rs:1609-1618 | arguments are evaluated, the whole service runs nested, and its emissions are appended only if it succeeds |
| `VjsEngine.EvalIndex` | core/src/vjs.rs:1634-1649 | indexing a document or a list agrees with the pure reading, missing keys and out-of-range indices included |
| `VjsEngine.EvalSelect` | core/src/vjs.rs:1651-1682 | a filter over a value that is no list is the empty list; otherwise the items the condition holds of, in order |
| `VjsEngine.EvalBin` | core/src/vjs.rs:1710-1790 | `and`, `or` and `??` evaluate their right operand exactly when the left one does not decide |
| `VjsEngine.EvalAll` | core/src/vjs.rs:1603-1608 | left to right, stopping at the first failure with the emissions made until then |
| `VjsEngine.EvalEntries` | core/src/vjs.rs:1596-1602 | entries in order, a later one of the same key winning |
| `VjsEngine.EvalParts` | core/src/vjs.rs:1586-1595 | the text of an f-string from its parts and holes, in order |
| `VjsEngine.Bind` | core/src/vjs.rs:1658-1669 | binding an item's fields over the pipeline remembers exactly what they hid |
| `VjsEngine.Restore` | core/src/vjs.rs:1671-1676 | putting back what was remembered gives the pipeline that was there before, keys that did not exist included |
| `VjsEngine.EvalFilter` | core/src/vjs.rs:1656-1681 | the kept items are those of the pure filter, and between items the pipeline is the caller's |
| `VjsEngine.Judge` | core/src/vjs.rs:1658-1676 | one item: bound, judged, and the pipeline restored whenever the condition evaluates |
| `VjsEngine.RunService` | core/src/vjs.rs:1453-1482 | agrees with the pure run; fails past depth 32; `depth` and `caller_pkg` return to their entry values on success and on every error path; a failed service hands on no emissions |
| `VjsEngine.RunBody` | core/src/vjs.rs:1471-1481 | the body runs in its own package and one level deeper, and both are undone however it ends |
| `VjsEngine.ExecBlock` | core/src/vjs.rs:1484-1556 | a block gives the pure run's scope, emissions and error |
| `VjsEngine.ExecStmt` | core/src/vjs.rs:1484-1556 | each statement agrees with the pure one, on success and on failure |
| `VjsEngine.ExecEmit` | core/src/vjs.rs:1537-1547 | an emission needs a string subject that is valid, and is appended after those of its operands |
| `VjsEngine.ExecRespond` | core/src/vjs.rs:1548-1552 | the response is the last one set |
| `VjsEngine.ExecMerge` | core/src/vjs.rs:1499-1512 | the service's final pipeline is merged over the caller's |
| `VjsEngine.ExecArms` | core/src/vjs.rs:1513-1527 | the first arm whose guard is true runs, otherwise the else block, and no later guard is evaluated |
| `VjsEngine.ExecFor` | core/src/vjs.rs:1528-1536 | the body runs once an item, and the loop variable is left bound to the last one |
| `VjsEngine.Run` | core/src/vjs.rs:1440-1451 | a whole run of the mutating, caching engine equals the pure run, and leaves the engine where it started |
| `VjsEngine.Serve` | core/src/main.rs:1199-1206 | cache transparency: over any rounds, with the files edited in any way between them and the cache dropped at each round's start, every event is answered as by an engine that rereads and reparses every file |
| `VjsEngine.ServeRound` | core/src/main.rs:1204-1206 | one round served from the cache equals the uncached answers |
| `VjsEngine.Engine.constructor` | core/src/vjs.rs:1344-1357 | a new engine is coherent with whatever the files hold |
| `VjsEngine.Engine.Invalidate` | core/src/vjs.rs:1358-1361 | dropping both caches makes the engine coherent with any state of the files |
| `VjsEngine.Engine.ExportsOf` | core/src/vjs.rs:1369-1397 | the cached export list is the one the manifest gives now |
| `VjsEngine.Engine.Resolve` | core/src/vjs.rs:1399-1419 | same target or same refusal as without a cache |
| `VjsEngine.Engine.ServiceStmts` | core/src/vjs.rs:1420-1431 | the cached body is the one the file parses to; the cache stays true to the files |
| `VjsEngine.KeyInjective` | core/src/vjs.rs:1421 | the cache key of a package and a service belongs to no other valid pair |
| `VjsLaws.FalsyExactly` | core/src/vjs.rs:1291-1300 | null, false, zero, the empty text and the empty list are false, and nothing else is, not even the empty document |
| `VjsLaws.DisplayLaw` | core/src/vjs.rs:1302-1308 | what a value is in a text: a text is itself, null is nothing, everything else its JSON |
| `VjsLaws.AndLaw` | core/src/vjs.rs:1712-1715 | `l and r` is true exactly when both are; the right operand is evaluated, with its emissions and service starts, exactly when the left one is true; the value is that of the last one evaluated |
| `VjsLaws.OrLaw` | core/src/vjs.rs:1716-1719 | `l or r` is true exactly when either is; the right operand is evaluated exactly when the left one is false |
| `VjsLaws.CoalesceLaw` | core/src/vjs.rs:1720-1723 | `l ?? r` is null exactly when both are; the right operand is evaluated exactly when the left one is null |
| `VjsLaws.StrictLaw` | core/src/vjs.rs:1726-1727 | every other operator evaluates left, then right, until one fails, and does not fail itself |
| `VjsLaws.EqualityLaw` | core/src/vjs.rs:1729-1730 | `==` is true exactly of equal values, `!=` exactly of different ones |
| `VjsLaws.OrderLaw` | core/src/vjs.rs:1731-1748 | of two numbers exactly one of `<`, `==`, `>` is true, with `<=` and `>=` their opposites |
| `VjsLaws.TextOrderLaw` | core/src/vjs.rs:1731-1748 | texts follow the string order; between anything else every order is false |
| `VjsLaws.InLaw` | core/src/vjs.rs:1749-1762 | `in` finds an element of a list, a key of a document, a part of a text, and nothing elsewhere |
| `VjsLaws.ArithmeticLaw` | core/src/vjs.rs:1763-1786 | a difference plus its subtrahend and a quotient times its nonzero divisor give the first operand back, products and sums likewise; division by zero and arithmetic on what is no number are null |
| `VjsLaws.JoinLaw` | core/src/vjs.rs:1763-1774 | `+` on two lists puts them after each other, and otherwise joins texts |
| `VjsLaws.UnaryLaw` | core/src/vjs.rs:1699-1708 | `not` is true exactly of what is false; a number and its negative add up to zero |
| `VjsLaws.AtomLaw` | core/src/vjs.rs:1584-1585 | a variable is what it was set to, or null; a literal is its value |
| `VjsLaws.FieldLaw` | core/src/vjs.rs:1619-1633 | the field of a document, or of every element of a list; null of null; of anything else an error, or null if asked for safely |
| `VjsLaws.IndexLaw` | core/src/vjs.rs:1634-1649 | an index finds a key of a document or a place of a list, and null where there is none |
| `VjsLaws.ProjectionLaw` | core/src/vjs.rs:1650 | an empty bracket leaves its value as it is |
| `VjsLaws.ArrayLaw` | core/src/vjs.rs:1603-1608 | the list of the values in order, or the first failure with what was emitted until then |
| `VjsLaws.DocLaw` | core/src/vjs.rs:1596-1602 | a document display has exactly its keys, each with the value of the last entry of that key |
| `VjsLaws.FStringLaw` | core/src/vjs.rs:1586-1595 | an f-string is its texts and the texts of its holes, in order |
| `VjsLaws.CallLaw` | core/src/vjs.rs:1683-1698 | a call hands its argument values on in order; `secret` alone asks the secret store, and only with a text |
| `VjsLaws.FilterLaw` | core/src/vjs.rs:1651-1682 | a filter keeps, in order, exactly the items whose condition is true with their fields laid over the variables |
| `VjsStmtLaws.BlockLaw` | core/src/vjs.rs:1484-1486 | a block is its first part and then, unless that fails, the second part in the scope it left |
| `VjsStmtLaws.AssignLaw` | core/src/vjs.rs:1487-1498 | after an assignment the path holds the value, every path beside it is as before, and on the way there are documents |
| `VjsStmtLaws.IfLaw` | core/src/vjs.rs:1513-1527 | where the first k guards are false and the next one true, its block runs after those guards and no later one is looked at; where all are false, the else block or nothing |
| `VjsStmtLaws.ForLaw` | core/src/vjs.rs:1528-1536 | a loop is written out: one assignment of the name and one body an item, in order; over no list nothing |
| `VjsStmtLaws.EmitLaw` | core/src/vjs.rs:1537-1547 | exactly one emission, of that payload to that subject, after what the operands emit; a subject that is no text or not valid fails before the payload is evaluated |
| `VjsStmtLaws.RespondLaw` | core/src/vjs.rs:1548-1552 | the response is this status and body, and nothing else changes |
| `VjsStmtLaws.ServiceLaw` | core/src/vjs.rs:1453-1482 | a service sees its arguments, also as `event`, and nothing of the caller, in its own package one level deeper; its variables come back without `event`, its emissions only if it succeeds |
| `VjsStmtLaws.InvokeLaw` | core/src/vjs.rs:1609-1618 | an `invoke` expression evaluates its arguments and is then a run of the service on them |
| `VjsStmtLaws.MergeLaw` | core/src/vjs.rs:1499-1512 | after a bare `invoke` each name the service gave back has its value, and every other name its old one |
| `VjsStmtLaws.ResolveLaw` | core/src/vjs.rs:1399-1419 | a reference leads to a service exactly if both names are valid and the package is the own one or lists it; each failure has its own error |
| `VjsStmtLaws.SpellsOne` | core/src/vjs.rs:1400-1403 | every reference spells exactly one package and service |
| `VjsStmtLaws.ExportListIs` | core/src/vjs.rs:1380-1394 | a service is exported exactly if the first EXPORTS constant is a list that holds its name |
| `VjsStmtLaws.RunLaw` | core/src/vjs.rs:1440-1451 | a run starts with the fields of its event and the event itself, and with no response |
| `VjsExports.ExportsAreTheLiteral` | core/src/vjs.rs:1369-1397 | with the language's own parser, a package exports a service exactly if reading the literal EXPORTS of its manifest gives a list that holds the name |
| `VjsTheorems.WriteAnalysisSound` | core/src/vjs.rs:1234-1273 | if `writes_bus` is false then for every event, service environment, secret store and package the run emits nothing and starts no service, whether it succeeds or fails |
| `VjsTheorems.EvalSilent` | core/src/vjs.rs:1255-1273 | the same for an expression at any depth |
| `VjsTheorems.ExecSilent` | core/src/vjs.rs:1239-1252 | the same for a block of statements |
| `VjsWrites.WriteAnalysisExact` | core/src/vjs.rs:1234-1273 | the analysis answers yes exactly if an `emit` or an `invoke` stands somewhere in the program, at the end of a way down through blocks, guards and operands |
| `VjsTheorems.ShadowNonInterference` | core/src/vjs.rs:1340-1343 | two secret stores that resolve the same references make a shadow run fail in both, or give identical variables, emissions and response, for every program, event and set of services |
| `VjsTheorems.EvalAlike` | core/src/vjs.rs:1683-1698 | redacted stores that agree make every expression evaluate alike, nested services included |
| `VjsTheorems.ServiceAlike` | core/src/vjs.rs:1453-1482 | and every service run |
| `VjsTheorems.ExportDiscipline` | core/src/vjs.rs:1399-1419 | every service body that starts was asked for by the flow or by a body started earlier one level up, is of the caller's own package or listed in its package's EXPORTS, and is at most 32 deep, however services invoke each other |
| `VjsTheorems.ServiceDisciplined` | core/src/vjs.rs:1471-1477 | the same seen from one invoke, with the callee's package as the new caller |
| `VjsPratt.PrattRoundTrip` | core/src/vjs.rs:1017-1177 | every tree the grammar can write, printed with the parentheses its binding powers require, parses back to itself with left association, consuming exactly its tokens, whatever stands before it and whatever follows that does not carry it on |
| `VjsPratt.ParsedIsWritable` | core/src/vjs.rs:1017-1177 | conversely every expression the parser gives is such a tree, and its printed form parses to it again |
| `VjsPratt.ReadInfix` | core/src/vjs.rs:1151-1175 | an operator's printed form reads back at any smaller power, grouping to the left |
| `VjsPratt.ReadUnary` | core/src/vjs.rs:1037-1038 | a sign or `not` binds tighter than every operator and looser than a postfix |
| `VjsPratt.ReadBracket` | core/src/vjs.rs:1116-1146 | a bracket reads as a filter exactly when what it holds is a condition, as an index otherwise |
| `VjsPratt.ReadParts` | core/src/vjs.rs:1024-1036 | the holes of an f-string read back, each from its own tokens |
| `VjsStmtPrint.StmtRoundTrip` | core/src/vjs.rs:930-1015 | every statement printed from its tree parses to it, consuming exactly its tokens: assignments with paths, emit, respond, invoke, if with arms and else, for |
| `VjsStmtPrint.ReadBlock` | core/src/vjs.rs:886-900 | a printed block reads back statement by statement up to its end, elif or else |
| `VjsStmtPrint.ParsedStmtIsWritable` | core/src/vjs.rs:930-1015 | whatever tokens a statement was parsed from, it can be printed, and its print parses to it |
| `VjsProgramPrint.ProgramRoundTrip` | core/src/vjs.rs:629-697 | a program of directives, constants and statements parses to its statements and its surface, in order |
| `VjsProgramPrint.SurfaceNameIs` | core/src/vjs.rs:673-677 | a name is one of the business surface exactly if it has no lower-case letter and at least one that is upper case |
| `VjsLayout.TwoOperators` | core/src/vjs.rs:1151-1175 | of two operators in a row the one of the higher level groups first, of equal ones the left one |
| `VjsLayout.SignsFirst` | core/src/vjs.rs:1037-1044 | `-` and `not` take the one operand behind them, before any operator |
| `VjsLayout.FilterOrIndex` | core/src/vjs.rs:1116-1143 | a bracket is a filter exactly if a comparison, an `in`, an `and`, an `or` or a `not` stands in it |
| `VjsLayout.ArrayLayout` | core/src/vjs.rs:1055-1068 | a list reads the same with commas or line breaks or both between its elements |
| `VjsLayout.DocLayout` | core/src/vjs.rs:1069-1084 | a document reads the same in any layout, with names, quoted names or keywords as keys |
| `VjsLayout.KeyIs` | core/src/vjs.rs:593-624 | in key position a token is a word exactly if it is a name, a quoted one, or a keyword, which stands for its letters |
| `VjsLayout.AnyWordIsAField` | core/src/vjs.rs:1104-1114 | any such word behind a dot is a field name |
| `VjsParserRun.Parser.Expr` | core/src/vjs.rs:1017-1177 | the recursive descent with its loops parses what the specification parses and leaves the index after it |
| `VjsParserRun.Parser.Prefix` | core/src/vjs.rs:1018-1102 | the same for what an expression starts with |
| `VjsParserRun.Parser.Postfixes` | core/src/vjs.rs:1104-1149 | the postfix loop |
| `VjsParserRun.Parser.Operators` | core/src/vjs.rs:1151-1175 | the operator loop: only operators above the minimum power, each with the rest at its own power |
| `VjsParserRun.Parser.Items` | core/src/vjs.rs:1055-1068 | the list loop, with commas optional and newlines skipped |
| `VjsParserRun.Parser.Args` | core/src/vjs.rs:1085-1096 | the argument loop |
| `VjsParserRun.Parser.Fields` | core/src/vjs.rs:1069-1084 | the document loop |
| `VjsParserRun.Parser.InvokeArgs` | core/src/vjs.rs:902-928 | `svc(...)` or `pkg:svc(...)` with named arguments |
| `VjsParserRun.Parser.Parts` | core/src/vjs.rs:1024-1036 | each hole of an f-string by a parser of its own |
| `VjsParserRun.Parser.SkipNewlines` | core/src/vjs.rs:584-588 | the index moves over newlines and no further |
| `VjsParserRun.Parser.LiteralValue` | core/src/vjs.rs:828-884 | the value read is the literal that stands there, with its entries and their spans; a failure is reported where the specification reports one |
| `VjsParserRun.Parser.DocLiteral` | core/src/vjs.rs:859-881 | the map built by inserting is the one in which the last entry of a key wins, and the spans are those of all entries |
| `VjsParserRun.Parser.TryLiteral` | core/src/vjs.rs:804-821 | a literal counts only up to the end of its line; otherwise the index is back where it was |
| `VjsParserRun.Parser.Block` | core/src/vjs.rs:886-900 | statements up to `end`, `elif` or `else` |
| `VjsParserRun.Parser.OneStmt` | core/src/vjs.rs:930-1015 | one statement of each kind |
| `VjsParserRun.Parser.Arms` | core/src/vjs.rs:959-982 | further arms, the else block, and the end of an `if` |
| `VjsParserRun.Parser.Lines` | core/src/vjs.rs:629-697 | the top-level loop gives the directives, surface constants and statements of the program in order |
| `VjsParserRun.Parser.OneItem` | core/src/vjs.rs:641-696 | an upper-case name with a literal up to the end of the line is a surface constant, anything else a statement |
| `VjsLexerRun.LexText` | core/src/vjs.rs:105-208 | the lexer's loop gives the tokens and places of the specification, or fails where it does |
| `VjsLexerRun.StepFrom` | core/src/vjs.rs:110-203 | one turn of the loop |
| `VjsLexerRun.StringFrom` | core/src/vjs.rs:210-232 | a string up to its closing quote, escapes resolved |
| `VjsLexerRun.FStringFrom` | core/src/vjs.rs:234-294 | an f-string's texts and holes, braces counted and inner text lexed again |
| `VjsLexerRun.HoleFrom` | core/src/vjs.rs:261-274 | the hole ends at the brace that balances |
| `VjsLexerRun.RunFrom` | core/src/vjs.rs:117-146 | comments, numbers and words extend as far as their characters do |
| `VjsWords.KeywordLexes` | core/src/vjs.rs:142-171 | each keyword is read from its own letters |
| `VjsWords.SymbolLexes` | core/src/vjs.rs:172-203 | each symbol is read from its own characters, two before one |
| `VjsWords.NameLexes` | core/src/vjs.rs:142-171 | a word that spells no keyword is a name |
| `VjsWords.NumberIs` | core/src/vjs.rs:132-141 | digits, and digits with a point among them, are the number they stand for in base ten |
| `VjsWords.FStringLexes` | core/src/vjs.rs:234-294 | an f-string is read as its texts, doubled braces and escapes undone, and its holes, up to the balancing brace, each lexed by itself |
| `VjsWords.CommentLexes` | core/src/vjs.rs:117-121 | a comment goes to the end of its line and is no token |
| `VjsWords.BlankLexes` | core/src/vjs.rs:112 | blanks, tabs and carriage returns are no tokens |
| `VjsWords.LexRoundTrip` | core/src/vjs.rs:105-208 | a text in which each token is spelled out lexes to exactly those tokens and the end of the last line |
| `VjsWords.TextRoundTrip` | core/src/vjs.rs:1275-1279 | from text to program: lines written out in such words parse to the program they say |
| `VjsLocal.ExprSame` | core/src/vjs.rs:1017-1177 | an expression that parses depends only on its own tokens and the one after them: the same tokens elsewhere, before anything else, give the same tree |
| `VjsLocal.StmtSame` | core/src/vjs.rs:930-1015 | the same for every statement |
| `VjsLocal.LiteralSame` | core/src/vjs.rs:828-884 | and for literals, also for the failure to read one |
| `VjsBrackets.ExprBalanced` | core/src/vjs.rs:1017-1177 | between the ends of an expression that parses, brackets are balanced and none from outside is closed |
| `VjsBrackets.LiteralInside` | core/src/vjs.rs:828-884 | reading a literal, or failing to, never leaves the bracket it started in |
| `VjsBrackets.LiteralWithinExpr` | core/src/vjs.rs:804-821 | so the attempt to read a constant as a literal looks at no token beyond the statement that is then parsed instead |
| `VjsSplice.ItemSame` | core/src/vjs.rs:636-697 | a line of the program is the same wherever its tokens stand |
| `VjsSplice.SpliceConst` | core/src/vjs.rs:673-696 | new tokens for one constant's literal leave every line before and after it as it was |
| `VjsSplice.SpliceField` | core/src/vjs.rs:859-881 | new tokens for one entry's value leave the other entries as they were |
| `VjsSplice.SpliceNewField` | core/src/vjs.rs:859-881 | an entry put before the closing brace is read after the ones there are, if no comma trails |
| `VjsSplice.MapOfReplaced` | core/src/vjs.rs:871-872 | replacing an entry's value changes the document exactly when no later entry has its key |
| `VjsRelex.LexOneLocal` | core/src/vjs.rs:110-203 | one step of the lexer looks no further than the character after what it reads |
| `VjsRelex.Recontext` | core/src/vjs.rs:105-208 | what is read before an edit stays, whatever comes after, unless the characters that meet run together |
| `VjsRelex.TokenReached` | core/src/vjs.rs:105-208 | every token's recorded place is one where the lexer stood, with exactly the earlier tokens read |
| `VjsJson.ReadBackIffPlain` | core/src/vjs.rs:210-232 | a string's JSON text is read back as that string exactly when it has no control character other than newline and tab |
| `VjsJson.QuoteLexes` | core/src/vjs.rs:210-232 | what the lexer makes of any string's JSON text, control characters included |
| `VjsJson.RenderLexes` | core/src/vjs.rs:1904-1908 | the compact JSON text of any readable document lexes to its tokens, and lexing goes on after it |
| `VjsJson.LiteralReads` | core/src/vjs.rs:828-884 | those tokens read, wherever they stand, as the document's value |
| `VjsEditProof.WholeEdit` | core/src/vjs.rs:1881-1911 | rewriting a whole constant always succeeds for a readable value; it is read back, every other line is unchanged, and the text outside the constant's own is identical |
| `VjsEditProof.EntryEdit` | core/src/vjs.rs:1881-1911 | rewriting an entry succeeds unless the new word would run into the next key; the text outside the value, every other line and every other entry are unchanged; what is read back is the new value exactly when no later entry has the key, otherwise still the later one |
| `VjsDuplicates.LaterEntryWins` | core/src/vjs.rs:1881-1911 | setting `a` in `A = {"a":1,"a":2}` to 7 succeeds, and `get_literal` of the result still gives 2 |
| `VjsGlued.GluedRefused` | core/src/vjs.rs:1904-1910 | in that one case (a bare `true`, `false` or `null` directly before a key) the edit is refused: the result parses neither as a literal nor as a statement |
| `VjsEditAdd.AddEdit` | core/src/vjs.rs:1912-1942 | adding a key to a table strict JSON accepts succeeds: the table holds the new entry beside the others, it is read back, and only the insertion before the closing brace is new in the text |
| `VjsEditAdd.TableEmpty` | core/src/vjs.rs:1918-1935 | the JSON reader finds a table empty exactly when the parser finds no entry, so a comma is put exactly when one is needed |
| `VjsEditTheorem.LiteralEditRoundTrip` | core/src/vjs.rs:1864-1942 | whenever `set_literal` succeeds, for a readable value and key and a constant with distinct keys: `get_literal` returns the value, under every other key and every other name what it returned before, every other line of the program is the same, and so is every character outside the change |
| `VjsEditTheorem.OneAssignmentChanges` | core/src/vjs.rs:1275-1279 | the edited source parses to the same program but for the constant's own assignment and surface entry |
| `VjsSpan.SpanExact` | core/src/vjs.rs:1890-1908 | the text that is replaced ends with the literal's own last character if and only if the lexer skips no comment after it |
| `VjsSpan.ConstSpanExact` | core/src/vjs.rs:1881-1908 | the same for a whole constant of any source |
| `VjsSpan.EntrySpanExact` | core/src/vjs.rs:1881-1908 | and for an entry |
| `VjsSpan.CommentIsReplaced` | core/src/vjs.rs:1890-1908 | setting `A` in `A = 1 # note` to 2 leaves `A = 2` |
| `VjsUnreadEntry.ReadBackExact` | core/src/vjs.rs:1864-1942 | for every document a JSON writer writes (section 6 of RFC 8259 for its numbers), a constant that is the only one of its name, set as a whole, at one entry (the last of its key, and no exponent directly before the next one) or by adding a key: if the edit succeeds, the document is read back if and only if no string in it and no added key has a control character other than newline and tab and no number has an exponent; with an exponent the constant is no longer on the surface |
| `VjsUnreadable.WholeReadBack` | core/src/vjs.rs:1864-1911 | the same for a whole constant, also with other constants of its name: with an exponent it is then a later one that is read |
| `VjsUnreadEntry.EntryReadBack` | core/src/vjs.rs:1881-1911 | the same for an entry, also with duplicate keys: where a later entry has the key, that is still what is read |
| `VjsUnreadEntry.AddReadBack` | core/src/vjs.rs:1912-1942 | the same for an added key, which itself has to be plain |
| `VjsUnreadEntry.RunOnEdit` | core/src/vjs.rs:1890-1911 | an exponent directly before the next key: the edit succeeds, the entry gets the number without its exponent, the next key gets the exponent in front, and nothing else changes |
| `VjsUnreadEntry.BrokenLeaves` | core/src/vjs.rs:673-696 | a word without a colon anywhere inside the braces of a constant takes it off the surface, and every other line stays |
| `VjsUnreadable.RawLexes` | core/src/vjs.rs:105-208 | what the lexer makes of any such document, readable or not |
| `VjsUnreadable.GarbledDiffers` | core/src/vjs.rs:210-232 | without exponents, the value that is read is the one meant exactly when every string is plain |
| `VjsUnreadable.Leaves` | core/src/vjs.rs:673-696 | with an exponent in a whole constant, its line is parsed as a statement, or not at all, every other line stays, and what is read of its name is what the lines behind it say |
| `VjsUnreadable.ExponentGoes` | core/src/vjs.rs:1864-1911 | for every exponent (`e16`, `e+16`, `E-7` and so on): setting `A` to a list of one number with it succeeds, and afterwards there is no constant `A` |
| `VjsFits.ReadingsExact` | core/src/vjs.rs:828-884 | for every surface literal: its tokens are an expression if and only if each list directly behind an element is empty or unbroken and no operator word is directly behind a value, hidden values included; they then end at the same token, and the expression evaluates to the literal in any world and pipeline if and only if no list element that counts is directly followed by `-` or `[` |
| `VjsFits.ExprFits` | core/src/vjs.rs:1104-1175 | over the elements of a literal list the expression parser succeeds exactly as far as that condition holds, at every binding power |
| `VjsFits.HiddenBreaks` | core/src/vjs.rs:844-881 | `{a: [1 [2, 3]], a: 2}`, with any word and any numbers in the list, is `{a: 2}` as a literal and no expression |
| `VjsFits.OperatorIsKey` | core/src/vjs.rs:859-881 | `{a: 1 and: 2}` is a document of two entries as a literal and no expression |
| `VjsReadings.ReadingsAgree` | core/src/vjs.rs:828-884 | where the tokens of a surface literal parse as an expression, the two readings agree if and only if no list element that counts is directly followed by `-` or `[` |
| `VjsReadings.MinusInList` | core/src/vjs.rs:844-858 | `[5 - 3]` is `[5, -3]` as a literal and `[2]` as an expression |
| `VjsReadings.ExprInList` | core/src/vjs.rs:1055-1068 | an expression over the elements of a literal list takes exactly one of them, or more where one goes on, and is free of variables and calls |
| `VjsEditRun.ApplyLiteral` | core/src/vjs.rs:1874-1942 | the operation as it runs gives the specified text or refusal |
| `VjsEditRun.StepBack` | core/src/vjs.rs:1895-1903 | the loop over trailing blanks stops at the value's own last character |
| `VjsEditRun.ParseText` | core/src/vjs.rs:1275-1279 | lexing and then parsing |
| `Link.BarrierSafety` | core/src/bus.rs:360-418 | for every interleaving of threads, writes, reads, drops, replacements, late reads and crashes: a batch whose `confirm` gave Ok was read by the server in full, once, in held order; and no barrier that is over has left a waiter |
| `Link.EchoProves` | core/src/bus.rs:154-183 | an echo heard while the epoch is still the batch's comes after everything the batch sent, none of which is still on its way |
| `Link.NextKeeps` | core/src/bus.rs:154-183 | every step of the link keeps that |
| `Link.RunKeeps` | core/src/bus.rs:360-418 | and every run |
| `LinkLive.ConfirmSucceeds` | core/src/bus.rs:360-418 | from every state with the connection up, an idle thread's batch can come to be confirmed with exactly what it held, without a drop, a replacement or a crash |
| `LinkLive.BegunIsConfirmed` | core/src/bus.rs:154-183 | a batch begun on this connection can be confirmed, however much of it is sent |
| `LinkLive.ConfirmExact` | core/src/bus.rs:176-183 | whatever happens meanwhile, `confirm` is Ok, for exactly what was held, if and only if the epoch at its end is the one the batch began in |
| `LinkLive.OnlyCompareConfirms` | core/src/bus.rs:176-183 | no other step adds to what is confirmed |
| `LinkLive.EchoAloneProvesNothing` | core/src/bus.rs:154-183 | why the epoch is compared: a run in which the echo of a batch comes back although the server never read the batch, and only the epoch keeps it from being confirmed |
| `Flow.AtLeastOnce` | core/src/main.rs:1199-1361 | in every run with crashes, stops, reconnects and redeliveries: a message the consumer has an ack for had all emissions of one of its runs read by the server, or has a dead letter; a dead letter is of a message that is not JSON or was delivered MAX_DELIVERIES times |
| `Flow.PublishedWasRead` | core/src/bus.rs:298-311 | a message acked after its batch was confirmed had its emissions read, consecutively and in order |
| `Flow.NextKeeps` | core/src/main.rs:1199-1361 | every step of consumer, workers, link and dead-letter queue keeps the accounting |
| `Flow.BuryKeeps` | core/src/connectors.rs:1185-1216 | a dead letter is stored before its message is acked, also when the answer is lost |
| `Flow.FinishKeeps` | core/src/main.rs:1336-1352 | acks leave only after the barrier answered Ok for what they stand for |
| `FlowLive.MessageGetsAcked` | core/src/main.rs:1199-1361 | progress: from every state with the connection up, a message on which a run succeeds can come to have its ack in the server, with that run's emissions read |
| `FlowLive.PoisonGetsBuried` | core/src/connectors.rs:1185-1216 | a poison message, or one failing at its fifth delivery or later, can come to have its dead letter and its ack |
| `FlowLive.FailureWaits` | core/src/main.rs:1292-1333 | a failure before that leaves neither: the message stays to be delivered again |
| `Detect.SnapshotCoverage` | core/src/main.rs:1497-1540 | over any number of crashes and changes of the program, back to an earlier version included, with no message processed before an earlier one still to be delivered: every stored snapshot for S has each message up to S in its state or dead-lettered, but for those behind the consumer when its version was taken up, and the attempt that restores it and resumes at S + 1 misses none; with one version none are behind |
| `Detect.NewVersionGoesOn` | core/src/main.rs:1497-1532 | such a run: a new version starts behind what the old one acked, and its snapshot stands for what follows |
| `Detect.FirstAttemptExact` | core/src/main.rs:1532-1540 | an attempt that finds no snapshot of its version skips nothing exactly when nothing but dead letters was passed since that version was taken up |
| `Detect.FirstSnapshotFails` | core/src/main.rs:1532-1540 | a run in which the first snapshot is not written and an acked message is in no state afterwards |
| `Detect.SaveCoversIffNoGap` | core/src/main.rs:1643-1779 | a snapshot written now covers its sequence exactly when everything up to the highest ack was processed in this attempt, restored or dead-lettered |
| `Detect.NextKeeps` | core/src/main.rs:1586-1779 | every step keeps the bookkeeping of `retrying`, `acked_max` and the engine's state |
| `Detect.OrderKeeps` | core/src/main.rs:1586-1603 | and, under orderly delivery, coverage |
| `Detect.SkippedDeliveryIsLost` | core/src/main.rs:1643-1779 | without orderly delivery coverage fails: a run in which a message is neither in the state, dead-lettered nor ever delivered again |
| `Lease.LeaseFencing` | core/src/cluster.rs:96-170 | at any point of any run of creates, renewals, lost answers, age-outs, crashes and unconditional deletes at most one renewer holds the latest revision; every other one never moves its revision again, and its next update leaves the key alone, clears `running` and ends its thread |
| `Lease.ExclusionExact` | core/src/cluster.rs:96-170 | exclusion of running drivers, exactly: over every run of two or more supervisors, the key is never lost (aged out, or deleted by some guard) while a driver runs, if and only if from no point of the run two drivers can come to run at once without a further loss |
| `Lease.LosslessGuards` | core/src/main.rs:1996-2031 | a run in which no key is lost under a running driver has one driver at a time, each under a key that is there |
| `Lease.TakesOver` | core/src/cluster.rs:119-130 | once the key is gone under a running driver, any other supervisor can come to run its own |
| `Lease.DeletedOverlap` | core/src/cluster.rs:96-105 | a run in which the late drop of one guard deletes the key of another instance that drives, and two drive |
| `Lease.AgedOutOverlap` | core/src/cluster.rs:138-163 | a run in which a driver stalls past the age limit and two drive |
| `Lease.HandOver` | core/src/main.rs:1996-2031 | a clean hand-over is no overlap |
| `Lease.StaleForever` | core/src/cluster.rs:138-163 | a renewer that is stale stays stale for the rest of every run |
| `Lease.StaleStandsDown` | core/src/cluster.rs:153-161 | its next update clears its supervisor's `running`, ends its thread, and leaves the key and every other thread alone |
| `Lease.StaleStays` | core/src/bus.rs:1020-1035 | compare-and-set against an old revision never succeeds again |
| `Governed.GovernedChange` | core/src/main.rs:699-823 | over all sequences of deploys, promotes, submissions, decisions, listings and resolves a proposal leaves pending at most once, and becomes approved only where the effective source has the hash it was pinned to |
| `Governed.ApprovedOnBaseline` | core/src/main.rs:785-823 | the only way to approved: an approval at an instance on the baseline, with the change applied there |
| `GovernedLaws.DecideLaw` | core/src/main.rs:785-823 | a decision, with every outcome and exactly when: not pending or no file, rejected, expired off its baseline, approved with the change landed, or left pending where it cannot be made |
| `GovernedLaws.ApprovedVersion` | core/src/main.rs:760-775 | a pending version on its baseline is approved exactly if the candidate is there and parses; outside a cluster the file then is the candidate and no other file changes, in a cluster the instance runs it and files and other overlays stay |
| `GovernedLaws.ApplyLaw` | core/src/main.rs:730-778 | what a change lands as: an overlay forked from the own file in a cluster, the file outside, and nothing where it is refused |
| `GovernedLaws.SubmitLaw` | core/src/main.rs:675-694 | a submission adds one pending proposal pinned to the hash of what the instance runs, and changes nothing else |
| `GovernedLaws.ListLaw` | core/src/main.rs:699-725 | a listed proposal whose unit has a file here expires exactly if it is pending and what runs here has a hash, and another one |
| `GovernedLaws.PromoteLaw` | core/src/main.rs:537-561 | an edit lands as a change of what the instance runs in a cluster, of the file outside, and nowhere if refused |
| `GovernedLaws.DeployLaw` | core/src/versions.rs:125-158 | a deploy changes one file and nothing shared |
| `Governed.DepartsAtMostOnce` | core/src/proposals.rs:88-105 | what was decided stays decided, and what is pinned stays pinned, over every run |
| `Governed.UnapprovedLandsNothing` | core/src/main.rs:785-823 | a decision that does not approve changes no file and adds no overlay |
| `Governed.ResolveExact` | core/src/versions.rs:125-158 | an overlay is used exactly when its parent is the hash of the instance's own file and is otherwise removed; resolving again changes nothing, and no other unit is touched |
| `Governed.DeployWins` | core/src/versions.rs:125-158 | a deploy wins over every overlay but one forked from the very content deployed |
| `Governed.ApprovalEditsTheEvidence` | core/src/main.rs:730-778 | an approval in the cluster lands as the edit of the source its evidence saw, one outside as the edit of the own file and of no other; the two are the same source exactly when the instance is in the cluster or no other overlay is in use there |
| `Governed.OtherUnitsUntouched` | core/src/versions.rs:40-44 | units with different keys do not see each other's promotes, deploys and evictions |
| `Governed.KeysEqual` | core/src/versions.rs:40-44 | two names share a key exactly when they differ only where neither has a letter or a digit |
| `Governed.PromoteSeen` | core/src/main.rs:537-561 | what a promote of one unit is to another: under another key nothing; under the same key its overlay if their files have the same hash, and the end of its own overlay otherwise |
| `Governed.ResolveSeen` | core/src/versions.rs:125-158 | a resolve takes another unit's overlay away exactly when it shares the key and does not fit here |
| `Governed.Isolated` | core/src/versions.rs:40-44 | two units are isolated from each other's promotes in every state if and only if their keys differ |
| `Governed.KeysCollide` | core/src/versions.rs:40-44 | `a-b` and `a_b` share a key, and promoting one changes what the other runs |
| `Governed.ApprovalMissesTheOverlay` | core/src/main.rs:730-778 | a run of two instances in which a proposal is pinned to the overlay and its approval, outside the cluster, edits the file |
| `Governed.Store.ResolveSource` | core/src/versions.rs:125-158 | refines the resolve: the effective source, and the bucket after eviction |
| `Governed.Store.PutVersion` | core/src/versions.rs:69-88 | writes the overlay with its parent and nothing else |
| `Governed.Store.PromoteVersion` | core/src/main.rs:537-561 | refines the promote: edits the effective source and forks from the instance's own file, or changes nothing but an eviction |
| `Governed.Store.SetSurface` | core/src/main.rs:3616-3633 | setting a literal is a version in a cluster and a local write otherwise |
| `Governed.Store.SetStatus` | core/src/proposals.rs:88-105 | changes one proposal's status and nothing else |
| `Governed.Store.SubmitProposal` | core/src/main.rs:675-694 | refines the submission: pinned to the hash of the effective source |
| `Governed.Store.ApplyApproved` | core/src/main.rs:730-778 | refines the application, on the overlay in a cluster and on the file otherwise |
| `Governed.Store.DecideProposal` | core/src/main.rs:785-823 | refines the decision with all its refusals |
| `Governed.Store.ReconcileAndList` | core/src/main.rs:699-725 | refines the listing, which expires what has lost its baseline |
| `Fnv.HashContent` | core/src/versions.rs:30-37 | the loop is the 64-bit FNV-1a fold |
| `Fnv.OneByteChangesTheHash` | core/src/versions.rs:30-37 | two sources that differ in exactly one byte never share a hash, so neither is taken for the other's baseline |
| `Fnv.KnownHashes` | core/src/versions.rs:30-37 | the published FNV-1a values of the empty text and of `a` |
| `MqSource.Lives` | connectors/mq/src/main.rs:98-138 | over any number of lives with failed publishes, lost answers, late stores, backouts and crashes: each consumed message is on the bus and nothing else is; without the late stores the bus is the queue in order with repeats of one message at a time, at most the next unconsumed message among them; every message comes after all that were before it in the queue, and only a late store of a publish that failed comes after a later message |
| `MqSource.RunSource` | connectors/mq/src/main.rs:98-138 | the same for one life, whatever the outside does in each turn |
| `MqSource.LifeDrains` | connectors/mq/src/main.rs:107-137 | progress: while nothing ends the loop, every turn whose publish is answered consumes a message as long as there is one, and no other turn does; with `RunSource`, which gives exactly this count and exit |
| `MqSource.LateKept` | connectors/mq/src/main.rs:119-135 | a late store keeps that, and uses up one of the publishes that failed |
| `MqSource.PublishKeepsOrder` | connectors/mq/src/main.rs:112-135 | publishing the message in flight, for the first time or again, keeps that order |
| `MqSource.ExpandHolds` | connectors/mq/src/main.rs:98-138 | such a log holds every message up to the last one begun, and nothing else |
| `MqSource.Broker.GetSyncpoint` | connectors/mq/src/main.rs:293-304 | the next message moves into the unit of work |
| `MqSource.Broker.Commit` | connectors/mq/src/main.rs:309-317 | the message in flight is consumed |
| `MqSource.Broker.Backout` | connectors/mq/src/main.rs:318-324 | the message in flight is back at the front |
| `Csv.CsvRoundTrip` | connectors/salesforce/src/main.rs:152-188 | reading back what was written gives the header and each row's cells, commas, quotes, CR and LF included (section 2 of RFC 4180), exactly when there is at least one column; with none, n rows read back as n + 1 records of one empty field |
| `Csv.RowsToCsv` | connectors/salesforce/src/main.rs:350-375 | the writer's loops give the header and one line a row, each cell quoted where it must be |
| `Csv.ParseCsv` | connectors/salesforce/src/main.rs:152-188 | the reader's loop over `field`, `record` and `in_quotes` is the specified scan |
| `Csv.ColumnsSound` | connectors/salesforce/src/main.rs:351-358 | the header names every key of every row exactly once |
| `Csv.ReadCell` | connectors/salesforce/src/main.rs:336-347 | a cell written before a separator is read back, whatever it holds |
| `Csv.CellLaw` | connectors/salesforce/src/main.rs:336-347 | a cell is quoted exactly if a comma, a quote or a line break is in it, and otherwise written as it is |
| `Csv.QuotesDoubled` | connectors/salesforce/src/main.rs:342-343 | every quote inside is doubled |
| `Csv.PlainText` | connectors/salesforce/src/main.rs:359-373 | commas between cells and a line feed behind each line, in concrete tables |
| `Mqtt.WireRoundTrip` | core/src/mqtt.rs:199-278 | any concatenation of frames with bodies under 268,435,456 bytes decodes to the same packets with nothing left (section 2.2.3 of MQTT 3.1.1) |
| `Mqtt.FrameRoundTrip` | core/src/mqtt.rs:48-68 | one frame reads back whole exactly below that limit, and is malformed from it on |
| `Mqtt.LenRoundTrip` | core/src/mqtt.rs:224-237 | the remaining-length field reads back at every stage of its loop |
| `Mqtt.LenLaw` | core/src/mqtt.rs:48-60 | seven bits a byte, the lowest first, the high bit exactly on all but the last, and no spare byte (section 2.2.3 of MQTT 3.1.1) |
| `Mqtt.PublishRoundTrip` | core/src/mqtt.rs:159-170 | topic, payload, QoS and packet id of a PUBLISH come back exactly when the topic has at most 65,535 bytes (section 3.3 of MQTT 3.1.1) |
| `Mqtt.PublishOnTheWire` | core/src/mqtt.rs:159-170 | the bytes of a PUBLISH: fixed header, length, topic behind its two-byte length, packet id for QoS above 0, payload (section 3.3 of MQTT 3.1.1) |
| `Mqtt.Answers` | core/src/mqtt.rs:244-278 | what the four answers of a broker say, by their first byte and their body |
| `Mqtt.PidsFresh` | core/src/mqtt.rs:88-92 | packet ids are never 0 and do not repeat within 65,535 consecutive ones (section 2.3.1 of MQTT 3.1.1) |
| `Mqtt.PutRemainingLen` | core/src/mqtt.rs:48-60 | the loop appends the specified bytes |
| `Mqtt.MakeFrame` | core/src/mqtt.rs:62-68 | fixed header, length and body |
| `Mqtt.ReadRemainingLen` | core/src/mqtt.rs:224-237 | the loop reads the specified number or refuses |
| `Mqtt.Client.Pid` | core/src/mqtt.rs:88-92 | the counter moves to the next packet id |
| `Mqtt.Client.Publish` | core/src/mqtt.rs:159-170 | the PUBLISH frame is appended to what was sent, with a new packet id exactly for QoS above 0 |
| `Civil.CivilCorrect` | core/src/connectors.rs:2225-2239 | for every second since the epoch the date is 1970-01-01 moved on a day at a time by the Gregorian rules, the time of day is in range, and both recombine to the input |
| `Civil.IsoReadsBack` | core/src/connectors.rs:2238 | every field reads back from its place in the ISO 8601 text, the year from four or more digits |
| `Civil.DateCorrect` | core/src/connectors.rs:2229-2237 | the closed formula is the day-by-day calendar |
| `Civil.NextDay` | core/src/connectors.rs:2229-2237 | each next day is the Gregorian successor of the one before |

## Left out

- Floating point: numbers are exact reals, so rounding, NaN and the switch to integers below 9e15 are not modelled.
- Error texts: failures are constructors of a datatype, and a syntax error does not say where it is.
- Text is a sequence of characters, as for ASCII sources; UTF-8 bytes, Unicode white space and case mapping are not modelled.
- Builtin functions of VejasScript (`upper`, `split`, `round` and so on), display text and string order: parameters.
- The static lists of emit subjects, invokes and secret references, the rules view and source spans of guards: presentation.
- Programs keep their directives as lines; which of several `source` lines is used is not modelled.
- Timeouts, back-off, negative acks, ack-wait and pull requests: any step may happen at any time instead.
- The flow, detect, lease and link loops are step machines on values and not methods, because their steps interleave with other threads, the server and crashes; update in place within one step is not captured.
- One process on one link, restarted at will; several processes share only the server. Counters for barrier ids, batches and revisions do not wrap around.
- VjsEngine.EvalIndex: numbers are exact reals, so an index given as the float 2.0, which the code answers with null, reads element 2.
- VjsEngine.EvalBin: for the same reason the integer 1 and the float 1.0 are one number under `==`.
- VjsEditTheorem.LiteralEditRoundTrip: asks for distinct keys in the edited constant and for a value whose JSON text the lexer reads back; VjsEditProof.EntryEdit says what is read with duplicate keys, and VjsUnreadEntry.ReadBackExact, EntryReadBack and RunOnEdit what becomes of every other value.
- Detect.SnapshotCoverage: asks for gap-free first delivery and for a first snapshot that is there when it is needed; Detect.SaveCoversIffNoGap and Detect.FirstAttemptExact say exactly when. Emissions of a detect unit are not covered by snapshots, which the code does not promise.
- Governed: proposal ids are numbers given in order, so the uniqueness of generated ids is taken for granted; audit records and the hexadecimal form of the hash are not modelled.
- Mqtt: CONNECT, SUBSCRIBE and keep-alive timing, and reads that come in pieces.
- Csv: the rendering of JSON numbers, lists and documents inside a cell is a parameter.
- Exec streams and their offsets, HTTP, OAuth, Slack, timer, SAP and AMQP drivers, and the FFI of the MQ client: external effects.
- HTTP routing, the panel, MCP, OpenAPI, tokens, metrics, traces and DLQ announcements: plumbing and presentation.
- The Varpulis engine: a state that is the sequence of what it was fed, with a feed that may fail.
