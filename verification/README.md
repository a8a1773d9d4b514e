# Deployment and maintenance machinery, verified

This project models the parts of the accounting product that change a running
installation: the scanners and the runner for schema migrations, the read-only
preflight evaluator, the rotation of the data key, the scaffolder for payroll
tax years, and the exact decimal sum that the payroll workflows use.

* **Scanners** (`Text`, `SqlLexer`, `StatementSplitter`, `PrintScan`,
  `LockDirective`, `DirectiveSpelling`, `Sanitizer`, `Dissection`,
  `SanitizeMeaning`, `SanitizeLimits`, `LockEffects`, `SettingSpelling`,
  `NamedSettings`, `LockLimits`, `CommentStripper`). The loops are written as loops and proved equal to a
  lexing of the text; the theorems are about that lexing. What the directive
  pattern matches is proved equal to a grammar of how directives are spelled.
  The lexical rules
  are those of the code, which approximate PostgreSQL 16 sections 4.1.2 and
  4.1.5 (no C-style escape strings). `LockEffects` says what the server does
  to lock_timeout when it runs a statement: comments are white space, names
  may be quoted, and a `DO` block runs its body.
* **Migrations** (`PgSession`, `Findings`, `MigrationRunner`,
  `MigrationAttempt`, `OptOut`, `MigrationRetry`, `BodyBound`,
  `StatementScope`, `MigrationOutcome`, `Replay`). A session is a state machine in which every query may succeed,
  fail with any SQLSTATE (leaving debris outside a transaction), or lose the
  connection before or after it took effect. The replies are an arbitrary
  sequence fixed beforehand, and the client's log is exactly what was asked
  and answered. Attempts, resets and retries are methods on that client; what
  they leave behind is proved for every sequence of replies.
* **Preflights** (`Preflight`) on the same session.
* **Data key** (`SealedBlobs`, `OrgSettings`, `KeyRotation`, `RotationRun`,
  `KeyRetirement`, `DataKeyRun`, `RotationOutcome`, `RotationLimits`). Sealing is symbolic: a blob opens under a
  ring if and only if the ring holds the key it was sealed with and the
  binding matches. Other sessions may commit anything between any two
  statements of the run, except to rows that its transaction has locked; what
  they do is an arbitrary function fixed beforehand, and a journal holds every
  commit in order.
* **Tax years** (`Scaffold`, `ScaffoldTexts`, `ScaffoldRuns`) and **decimals** (`Decimal`).

## What is false of the code

Each of these has an exact condition, or a lemma at a concrete input, or both.

* One pass of the sanitizer can leave a live directive, because its pattern has
  no leading word boundary (`OnePassCanLeaveADirective`); it can cut a quoted
  value in two and leave an open quote (`QuotedValueLeavesAnOpenQuote`).
* Not every statement that sets lock_timeout is removed. The pattern wants
  white space between its words, where the server also takes a comment; it
  does not know `reset all`; and the scan leaves dollar bodies alone, which
  the server runs in a `DO` block. `set/**/lock_timeout = 0;` and `reset all;`
  pass and lift the runner's bound in every run that gets through
  (`CommentedBodyEscapes`, `ResetAllEscapes`), and
  `do $$begin set lock_timeout = 0; end$$;` passes and can lift it
  (`DoBlockEscapes`). In a file whose directives are whole statements, the
  runner's bound stays in force throughout exactly if no other statement sets
  lock_timeout (`SanitizedBodyIsBoundedIff`).
* Stripping comments is idempotent exactly when no block comments alone
  separate `-` from `-` or `/` from `*` (`StripIdempotentIff`, `GluedDashes`).
* If `SET ROLE` fails after `SET lock_timeout` outside a transaction, no reset
  is sent and the bound stays in the session (last clause of
  `ExecuteMigrationAttempt`, `RefusedRoleLeavesBound`).
* Vendor roles are read by `id` but written back `where party_id = id`
  (scripts/rotate-data-key.ts:294-299), and the two are different columns
  (schema/src/parties.ts:130-133). A vendor tax number that needs sealing
  again therefore stops the whole run, unless another role stands in for it
  (`VendorLegIff`, `VendorTableRefuses`); and where it does not stop, it can
  bind the number to the wrong tenant (`SwappedTableMisbinds`). The theorems on
  retiring keys are therefore about all other tables.
* A legacy e-mail credential that opens to the empty text is sealed into a
  blob that nothing opens; the next run refuses it (`RotateTwiceIff`,
  `EmptyCredentialIsRefusedNext`).
* An array where the settings hold an object is written back as an object
  (`UnchangedIffTidy`, `ArraysBecomeObjects`).
* On `platform_settings`, a dry run always reports nothing to seal again; its
  report differs from that of an applied run exactly when there is something
  (`DryRunCountsIff`, `OldTokenReports`).
* `sumExact` loses the sign of addends between minus one and zero
  (`TotalExactIff`, `MinusHalfSums`), and so misreads its own output there
  (`PrintedReadsBackIff`).
* A file without a transaction whose concurrent builds are not dropped up
  front does not converge (`ConvergesIffUpFront`).

## Model

| member | source | states |
|---|---|---|
| SqlLexer.LexLossless | scripts/bootstrap-migration-client.ts:300-435 | the lexemes of any text, in any starting mode, concatenate to the text |
| SqlLexer.SemicolonIsClean | scripts/bootstrap-migration-client.ts:315-383 | no step of the scan looks past a semicolon: quotes, comment marks, dollar tags and closing tags are all decided before it |
| SqlLexer.LexAppend | scripts/bootstrap-migration-client.ts:315-383 | a text whose look-ahead stays inside it lexes the same before any other text, which is then lexed from the mode the first one ends in |
| SqlLexer.Advance | scripts/bootstrap-migration-client.ts:176-284 | one loop iteration on the variables state, depth and tag is one step of the automaton, with the same width |
| StatementSplitter.SplitSqlStatements | scripts/bootstrap-migration-client.ts:300-435 | the loop returns the code-holding fragments between top-level semicolons, in order |
| StatementSplitter.LosslessPartition | scripts/bootstrap-migration-client.ts:300-435 | kept and dropped fragments concatenate to the exact input; each lexes alone to itself; each but the last has exactly one top-level semicolon, at its end, with nothing open there; the last has none |
| StatementSplitter.SelfDelimiting | scripts/bootstrap-migration-client.ts:378-433 | every emitted statement splits to itself alone, and holds code |
| StatementSplitter.ResplitEmitted | scripts/bootstrap-migration-client.ts:378-433 | splitting the concatenation of the emitted statements gives the same list |
| StatementSplitter.SplitAppend | scripts/bootstrap-migration-client.ts:378-383 | after a text that stops at a top-level semicolon, splitting starts afresh |
| PrintScan.PrintScanRoundTrip | scripts/bootstrap-migration-client.ts:300-435 | for every script printed from tokens (code characters, quoted strings and identifiers with doubled quotes, dollar bodies, line comments, nested block comments) without accidental gluing, the splitter returns exactly the printed statements that hold code |
| PrintScan.PieceReads | scripts/bootstrap-migration-client.ts:315-432 | every printed token is read back as lexemes without a cut, in code state again, and holds code unless it is blank or a comment |
| PrintScan.TagLenIff | scripts/bootstrap-migration-client.ts:312-314 | a dollar quote opens exactly where a dollar, a name (a letter or an underscore, then letters, digits and underscores) or nothing, and another dollar stand |
| Text.CodePoints | scripts/bootstrap-migration-client.ts:166-170 | the character classes and letter cases that the patterns use, by code point |
| DirectiveSpelling.SpelledIsMatched | scripts/bootstrap-migration-client.ts:166-167 | a directive in any letter case, with any blanks, with or without SESSION or LOCAL, with `=` or TO and any value, or a RESET, each with or without its semicolon, is matched to its end and no further |
| DirectiveSpelling.MatchedIsSpelled | scripts/bootstrap-migration-client.ts:166-167 | whatever the pattern matches is such a spelling, and ends where that does |
| Dissection.SanitizedIff | scripts/bootstrap-migration-client.ts:162-285 | for any text, the result is what is left when every directive that is spelled where the scan stands in code is dropped, and nothing else |
| Dissection.SpelledIsDropped | scripts/bootstrap-migration-client.ts:230-235 | between statements, a spelled directive is dropped and nothing beside it |
| LockDirective.DirectiveLenAppend | scripts/bootstrap-migration-client.ts:166-167 | whether the pattern matches, and how far, is decided by the text up to the first semicolon |
| Sanitizer.SanitizeMigrationContent | scripts/bootstrap-migration-client.ts:162-285 | the loop returns the text of the lexemes that no directive covers |
| Sanitizer.ScannersAgree | scripts/bootstrap-migration-client.ts:176-284 | on text without a directive in code, sanitizer and splitter go through the same lexemes in the same modes |
| Sanitizer.UnchangedIffDirectiveFree | scripts/bootstrap-migration-client.ts:230-235 | the sanitizer returns its input exactly when no directive is matched at a code position |
| SanitizeMeaning.OutputSettles | scripts/bootstrap-migration-client.ts:166-235 | if every matched directive starts a statement, no match and no look-ahead straddles a removed span |
| SanitizeMeaning.SanitizeReachesFixpoint | scripts/bootstrap-migration-client.ts:162-285 | under that hypothesis the output holds no directive in code, a second pass returns it unchanged, and it lexes to the kept lexemes |
| SanitizeMeaning.SanitizePreservesMeaning | scripts/bootstrap-migration-client.ts:162-435 | if, besides, each directive ends in a top-level semicolon, splitting the output gives the statements of the input without exactly the directives, up to leading blanks and comments |
| SanitizeLimits.OnePassCanLeaveADirective | scripts/bootstrap-migration-client.ts:166-167 | a concrete body whose sanitized text is a directive, which a second pass removes |
| SanitizeLimits.QuotedValueLeavesAnOpenQuote | scripts/bootstrap-migration-client.ts:166-167 | a concrete closed body whose sanitized text ends inside a quote |
| LockEffects.SanitizedIsQuietIff | scripts/bootstrap-migration-client.ts:148-161 | if every directive starts a statement and ends in a top-level semicolon: no statement of the sanitized text sets lock_timeout exactly if none of the input does but the directives |
| LockEffects.QuietIffStatements | scripts/bootstrap-migration-client.ts:300-435 | a text sets lock_timeout exactly if one of the statements that the splitter sends does, each sent alone |
| SettingSpelling.SettingIsRead | scripts/bootstrap-migration-client.ts:148-156 | SET, an optional scope, the name (plain or quoted), `=` or TO, and a value, in any letter case and with any blanks: the server sets that value, LOCAL or not |
| SettingSpelling.ResetIsRead | scripts/bootstrap-migration-client.ts:148-156 | RESET of the name, RESET ALL and DISCARD ALL reset it |
| NamedSettings.NamedIsMatched | scripts/bootstrap-migration-client.ts:148-167 | what the server reads as a SET or RESET of lock_timeout by its plain name, the pattern matches |
| NamedSettings.PlainFileIsQuietBesides | scripts/bootstrap-migration-client.ts:148-167 | in a file of plain statements (no comment behind the first word, no double quote, no DO, RESET ALL or DISCARD ALL) nothing but the directives sets lock_timeout |
| LockLimits.CommentedSets | scripts/bootstrap-migration-client.ts:166-167 | `set/**/lock_timeout = 0;` passes the sanitizer unchanged and is one statement that sets lock_timeout |
| LockLimits.ResetAllResets | scripts/bootstrap-migration-client.ts:166-167 | so does `reset all;`, which resets it |
| LockLimits.DoBlockMaySet | scripts/bootstrap-migration-client.ts:157-160 | so does a `DO` block whose dollar body sets it |
| LockLimits.NamedLeaves | scripts/bootstrap-migration-client.test.ts:201-214 | a quoted name that reads like a directive passes unchanged and sets nothing |
| CommentStripper.StripAdvance | scripts/migration-preflight.ts:143-198 | one iteration of the third scanner: new state, width and output are those of its automaton |
| CommentStripper.StripSqlComments | scripts/migration-preflight.ts:137-201 | the loop returns the stripped text |
| CommentStripper.StripErasesComments | scripts/migration-preflight.ts:137-201 | on text without double quotes and dollars, stripping is the splitter's scan with comment characters erased; newlines that end line comments and all strings stay |
| CommentStripper.StripIsErasing | scripts/migration-preflight.ts:137-201 | for every source: rename its double quotes and dollars to any characters that neither scan knows, and what stripping returns, so renamed, is the splitter's scan of the renamed source with the comments erased |
| CommentStripper.StripIdempotentIff | scripts/migration-preflight.ts:143-160 | stripping twice is stripping once exactly when no block comments alone separate a dash from a dash or a slash from a star |
| CommentStripper.GluedDashes | scripts/migration-preflight.ts:143-160 | two dashes apart but for a comment: stripped once they are a comment, stripped twice they are gone |
| PgSession.Client.Query | scripts/bootstrap-migration-client.ts:488-549 | one query: the server's own reply for this turn, the state it leads to, what the caller sees; the log is exactly what happened; body text sets lock_timeout as its statements do, one after another |
| Findings.WellFormedIff | scripts/migration-preflight.ts:312-345 | a row is accepted exactly if its five columns are non-empty texts, its code is the migration's own four digits, a dot and a lower-case name, and its severity is refuse or notice |
| Findings.ValidateFindingRows | scripts/migration-preflight.ts:319-359 | accepted exactly if every row is well formed, and then the i-th finding says column by column what the i-th row does; otherwise the first malformed row |
| Findings.RefusalsAreFaithful | scripts/migration-preflight.ts:319-359 | the findings refuse exactly when some row says refuse |
| Findings.ReadQueryIff | scripts/migration-preflight.ts:366-373 | a preflight may run exactly if, without its comments, it is blanks and then SELECT or WITH as a whole word, in any letter case |
| MigrationRunner.Issue | scripts/bootstrap-migration-client.ts:519-541 | a command the plan foresees either moves the attempt on by exactly its effect or stops it with exactly the effects so far; body text and ledger row are sent only under the lock bound and the owner's role |
| MigrationRunner.ExecuteMigrationBody | scripts/bootstrap-migration-client.ts:482-508 | the body runs whole, or stops after exactly the statements before the failing one (or that one, if only its reply was lost); the error names that step, and is a raw lock timeout exactly if the server sent one |
| MigrationRunner.BeforeBody | scripts/bootstrap/migrate.ts:126-149 | the deferred preflight lets the migration go on only if it is a read query, ran under its own timeout (lifted afterwards), every row is well formed and a notice; until then no other work is sent |
| MigrationAttempt.Setup | scripts/bootstrap-migration-client.ts:519-526 | setup sends its commands in order and either puts bound and role in force or leaves nothing durable |
| MigrationAttempt.ApplyBody | scripts/bootstrap-migration-client.ts:527-529 | preflight and body inside the guarded part |
| MigrationAttempt.ApplyAndRecord | scripts/bootstrap-migration-client.ts:527-541 | on success body, ledger row and application defaults are in place; on failure what is durable is known exactly |
| MigrationAttempt.RestoreSession | scripts/bootstrap-migration-client.ts:542-551 | the resets are sent whatever the replies, change nothing durable and no other setting, and clear bound and role if they take effect |
| MigrationAttempt.ExecuteMigrationAttempt | scripts/bootstrap-migration-client.ts:510-552 | body and ledger row are durable together or not at all in a transaction; outside one exactly a prefix, with perhaps the debris of the next statement; the thrown error is the first one the server gave, a lock timeout exactly if that was one; every body query ran under bound and role; the log ends with the resets exactly if setup completed; a failed SET ROLE leaves the bound behind |
| MigrationAttempt.RefusedRoleLeavesBound | scripts/bootstrap-migration-client.ts:523-526 | a concrete run: the server takes the bound and refuses the role; no reset is sent and the bound stays in the session |
| OptOut.RunsWithoutTransactionIff | scripts/bootstrap-migration-client.ts:144-146 | a file runs without a transaction exactly if one of its lines is the marker: two dashes, `openbooks:` and `no-transaction` in any letter case, with only blanks around them |
| MigrationRetry.ConnectMigrationClient | scripts/bootstrap-migration-client.ts:24-37 | the connection is open and sees every row, or the round ends here with the server's error |
| MigrationRetry.OneTry | scripts/bootstrap/migrate.ts:114-174 | one round on one connection: it ends with the first error the server gave, cleaning up aside, or with none; a failure to connect is not caught |
| MigrationRetry.ExecuteTrackedMigration | scripts/bootstrap/migrate.ts:83-176 | the log of all connections falls into rounds; one follows another exactly if the first thing to fail was a lock wait, its connection stood, and attempts are left; in every round, all that is sent as work is one of the migration's own texts or its ledger row, under its own lock bound and the role that was looked up, and behind its own preflight if one was put off; a success holds that clearance and ends in the sanitized texts and the ledger row; every round but the last was incomplete; what is durable is the concatenation of what each reached, and with a transaction the whole script or nothing |
| BodyBound.AlwaysBoundedIff | scripts/bootstrap-migration-client.ts:482-508 | in either mode, the runner's bound is in force before and after every query of the body in every run that gets through, whatever the server answers, exactly if no statement of the body sets lock_timeout (SET LOCAL counts only inside a transaction) |
| BodyBound.AtEveryStatementIff | scripts/bootstrap-migration-client.ts:482-491 | the same between the statements of a body that is sent as one query |
| BodyBound.LiftedInEveryRun | scripts/bootstrap-migration-client.ts:148-161 | a statement that sets it, in a body without `DO` blocks that can, lifts the bound in every such run, and there is one |
| MigrationAttempt.BodyIsFree | scripts/bootstrap-migration-client.ts:482-508 | a directive (or a role name) that the whole body lacks is in no statement sent |
| MigrationOutcome.SanitizedBodyIsBoundedIff | scripts/bootstrap-migration-client.ts:148-285 | a file whose directives all start statements and end in a top-level semicolon: its sanitized body runs under the runner's bound, before every statement and query and after the last, exactly if the file sets lock_timeout in no other way; the whole attempt is then guarded |
| MigrationOutcome.PlainFileIsBounded | scripts/bootstrap-migration-client.ts:148-285 | a file of plain statements whose directives are whole statements: its sanitized body never loses the bound |
| MigrationOutcome.CommentedBodyEscapes | scripts/bootstrap-migration-client.ts:166-167 | a comment between the words: the body meets the hypothesis, is not changed, and loses the bound in every run, in both modes |
| MigrationOutcome.ResetAllEscapes | scripts/bootstrap-migration-client.ts:166-167 | so does `reset all;` |
| MigrationOutcome.DoBlockEscapes | scripts/bootstrap-migration-client.ts:157-160 | a `DO` block: the body is not changed, and there are runs in which it loses the bound |
| MigrationOutcome.NamedBodyStays | scripts/bootstrap-migration-client.test.ts:201-214 | a quoted name that reads like a directive: the body is not changed, and never loses the bound |
| StatementScope.StatementsAreFree | scripts/bootstrap-migration-client.ts:300-435 | no statement of a directive-free text holds a directive |
| StatementScope.StatementsAreRoleFree | scripts/bootstrap-migration-client.ts:300-435 | no statement of a text that names no role names one |
| MigrationRetry.TransactionIsAtomic | scripts/bootstrap-migration-client.ts:519-541 | over all retries, body and ledger row are durable once and together or not at all; only a lost connection hides a success |
| MigrationOutcome.OneLedgerRow | scripts/bootstrap-migration-client.ts:534-537 | in both modes: one ledger row on success, none on a reported failure, never two |
| Replay.RedoToFront | scripts/bootstrap-migration-client.ts:137-143 | replaying a file up to where it had got finds the clean database there, failed build or not |
| Replay.ReplayConverges | scripts/bootstrap-migration-client.ts:137-143 | any number of attempts that stopped anywhere, then a complete one, leave the database of one clean run, for any starting database |
| Replay.UnpreparedDiverges | scripts/bootstrap-migration-client.ts:137-143 | one concurrent build whose failed builds are not dropped up front: a failed attempt and a complete one end elsewhere |
| Replay.ConvergesIffUpFront | scripts/bootstrap-migration-client.ts:137-143 | among files that never drop late, exactly those converge that drop failed builds up front |
| Replay.TrackedMigrationConverges | scripts/bootstrap/migrate.ts:109-174 | a tracked migration that succeeds after lock timeouts leaves the database of one clean run |
| Replay.RepeatedCallsConverge | scripts/bootstrap/migrate.ts:83-176 | so do any number of calls for one file that failed, with whatever debris, and one that succeeds: one clean run from before the first |
| Preflight.AssumeRole | scripts/migration-preflight.ts:394-417 | the role is in force, or the savepoint has restored the session's own role after a refusal |
| Preflight.Run | scripts/migration-preflight.ts:418-434 | the outcome tells the last answer to the preflight's text, with the role that was in force: all its rows as findings, a missing object, a malformed row, or the server's error |
| Preflight.ToldOnce | scripts/migration-preflight.ts:418-434 | an answer can be told in one way only |
| Preflight.ReadyRefusesIff | scripts/migration-preflight.ts:418-423 | an evaluation that is ready refuses exactly if some row of the answer says refuse |
| Preflight.EvaluateInside | scripts/migration-preflight.ts:389-447 | at most two sends; read only, timeout and bypass in force at each; a throw is blamed on an answer other than a denial under the role |
| Preflight.EvaluatePreflight | scripts/migration-preflight.ts:379-451 | for every sequence of replies: only rollbacks while aborted, no commit, at most two sends, ROLLBACK last if BEGIN succeeded, nothing durable, the session as it was; when ready, every row of the last answer is well formed and a finding of its own; deferred exactly on 42P01, 42703 or 42883; leastPrivilege is true exactly if the reported execution ran under the role, and false only after a refusal or denial |
| SealedBlobs.ResealKeepsPlaintext | scripts/rotate-data-key.ts:87-107 | a value that opens keeps its plaintext, opens under the active key alone, and is current for the next plan; the plan throws exactly if it does not open |
| OrgSettings.RotateOrgSettings | scripts/rotate-data-key.ts:593-675 | the method computes the specified rotation of the document |
| OrgSettings.RotateTwiceIff | scripts/rotate-data-key.ts:593-675 | rotating the result again reports no change and returns it as it is, exactly if no legacy credential opened to the empty text |
| RotationLimits.EmptyCredentialIsRefusedNext | scripts/rotate-data-key.ts:649-670 | a legacy credential that opens to the empty text: the first run seals it, the second refuses the document |
| OrgSettings.RotationKeeps | scripts/rotate-data-key.ts:593-675 | AI and capture secrets keep their plaintext, the e-mail secret ends as the legacy plaintext or keeps its own, under the full ring and under the active key alone; every other field stays |
| OrgSettings.UnchangedIffTidy | scripts/rotate-data-key.ts:598-634 | a document that needs no change comes back as it was exactly if none of its three object-valued parts is stored as an array |
| KeyRetirement.RowIsCurrent | scripts/rotate-data-key.ts:593-675 | after rotation every sealed text of a row, read field by field, names the active key, and no legacy credential is left |
| KeyRotation.Database.Editors | scripts/rotate-data-key.ts:329-341 | the other sessions' turn: an arbitrary edit fixed beforehand, except of locked rows, entered in the journal |
| KeyRotation.ApplyWrites | scripts/rotate-data-key.ts:329-341 | among editors the rotation commits once, last, each write over one row that holds what was read and nothing else; or not at all, because a write does not find exactly one such row |
| RotationRun.PlanLeg | scripts/rotate-data-key.ts:308-328 | the writes planned are those of the rows that need sealing again, each once, with the counts; it stops exactly if a row does not open |
| RotationRun.RotateLeg | scripts/rotate-data-key.ts:308-349 | every commit of the journal is an editor's, but for one at the end of a completed applied leg, which carries out the plan; it refuses only for a row that does not open or a write that does not find one row; dry and applied runs report the same |
| RotationRun.TenantRunIsAlone | scripts/rotate-data-key.ts:125-143 | a run for one tenant counts, refuses and plans as if the rows of the others were not there |
| RotationRun.OthersAreSpared | scripts/rotate-data-key.ts:125-143 | its commit changes no row but for a row of that tenant |
| RotationRun.SealedReport | scripts/rotate-data-key.ts:308-349 | the report of a column of sealed texts, from what the rows of the tenant hold: how many there are, under the active key, and not |
| RotationRun.OtherReport | scripts/rotate-data-key.ts:351-543 | in a table of documents or snapshots every row of the tenant is counted once, drifted snapshots as skipped |
| RotationRun.ByIdCommit | scripts/rotate-data-key.ts:329-341 | written back by id, the commit is the plan carried out on the table as the editors had left it |
| RotationRun.CalmByIdLeg | scripts/rotate-data-key.ts:308-349 | with no editors a leg by id completes exactly if every selected row opens |
| RotationRun.CalmLeg | scripts/rotate-data-key.ts:308-349 | with no editors a leg completes exactly if every row opens and every planned write finds one row, and the resulting table is known |
| KeyRetirement.RowKept | scripts/rotate-data-key.ts:308-349 | one row: every secret opens to what it did, under the full ring and the active key alone, and is not planned again |
| KeyRetirement.RetiringIsSafe | scripts/rotate-data-key.ts:308-460 | after an undisturbed leg by id every row of the tenant (or of all) opens under the active key alone to what it opened to before, and a second run plans zero writes |
| KeyRetirement.LegIsStep | scripts/rotate-data-key.ts:308-349 | an undisturbed leg, complete or not, is a step of the runs below and touches no other table |
| KeyRetirement.InterruptedRunsKeepSecrets | scripts/rotate-data-key.ts:329-341 | any sequence of complete, interrupted and refused runs by id preserves every plaintext |
| KeyRetirement.InterruptedThenComplete | scripts/rotate-data-key.ts:308-349 | such a sequence that ends in a complete run leaves everything readable with the active key alone |
| KeyRetirement.NoLostUpdate | scripts/rotate-data-key.ts:329-341 | among any editors a leg by id commits at most once, last, and only if it completes; its commit touches no other table and no row that does not hold the value read, changes values only, and keeps every secret |
| RotationOutcome.RowThroughJournal | scripts/rotate-data-key.ts:308-460 | through any number of calls, finished or stopped, among any editors, a row that nobody else edits keeps its tenant, its owner and every secret |
| RotationOutcome.CallsAreOrdained | scripts/rotate-data-key.ts:145-590 | in any number of calls, each explained as `RotateDataKey` promises, every commit of the rotation is the plan of one of their legs on what its table held before, or touches the platform settings only |
| RotationOutcome.RetiresAmongEditors | scripts/rotate-data-key.ts:145-590 | among any editors and any number of calls, one of which ran through: each row of its tenant that nobody else edits opens, in the end, under the active key alone to what it opened to in the beginning |
| RotationOutcome.CallsSpareOthers | scripts/rotate-data-key.ts:125-143 | in calls for one tenant, the rotation changes a row by id only if some call read it as a row of that tenant |
| KeyRetirement.HinderedIff | scripts/rotate-data-key.ts:308-328 | the plan of a leg stops exactly if a row of the tenant holds a secret that is there and does not open, or a snapshot that cannot be proved |
| KeyRetirement.VendorLegIff | scripts/rotate-data-key.ts:291-305 | the vendor leg, read by id and written by party, completes exactly if every row opens and each row to be sealed again has exactly one stand-in, a row with that id as its party and the same value; the stand-ins are what it writes |
| KeyRetirement.VendorLegStops | scripts/rotate-data-key.ts:291-305 | where no party shares an id with a role, it completes only if there is nothing to seal again, and never writes |
| RotationLimits.VendorTableRefuses | scripts/rotate-data-key.ts:294-299 | two vendor roles under the old key, both readable: the leg refuses and leaves them there |
| RotationLimits.SwappedTableMisbinds | scripts/rotate-data-key.ts:294-299 | a table on which it completes, and leaves both tenants with a number they cannot read |
| DataKeyRun.RotatePlatform | scripts/rotate-data-key.ts:545-588 | among editors the token is written once, over settings that are still those read, or the run refuses; the report counts zero in a dry run |
| DataKeyRun.CalmPlatform | scripts/rotate-data-key.ts:545-588 | with no editors the leg completes exactly if the token opens or there is none |
| RotationLimits.OldTokenReports | scripts/rotate-data-key.ts:585 | one token under the old key: an applied run reports one to seal again, a dry run none |
| DataKeyRun.RotateDataKey | scripts/rotate-data-key.ts:145-590 | among editors every commit of the run is that of a leg, by the plan made on what its table held, or of the platform settings; a dry run commits nothing; a finished applied run has served every leg; undisturbed, the run stops at the first leg that is not clear and finishes exactly if all are, with the tables and reports known |
| RotationOutcome.FinishedRunRetires | scripts/rotate-data-key.ts:145-590 | after a finished applied run every row of the tenant in a sealing leg by id, and the feedback token, open under the active key alone, and the next run has nothing to seal again there |
| Scaffold.WriteScaffoldFiles | scripts/payroll-new-tax-year.ts:103-124 | the absent files are written and reported, existing ones skipped and never changed; a dry run writes nothing |
| Scaffold.InsertByYear | scripts/payroll-new-tax-year.ts:142 | a module is placed by ascending year, losing and doubling none |
| Scaffold.RewriteBarrel | scripts/payroll-new-tax-year.ts:131-157 | the barrel is rendered from exactly the files beside it whose names hold a year, each once, by ascending year |
| ScaffoldTexts.RenderLists | scripts/payroll-new-tax-year.ts:143-155 | the rendered text is the template's with one import line and one entry line for each module, in that order, and nothing else |
| ScaffoldTexts.FillIsFilled | scripts/payroll-new-tax-year.ts:93-95 | every `{year}` and `{priorYear}` of a template gets its year, and all other text stays |
| ScaffoldTexts.WrittenFiles | scripts/payroll-new-tax-year.ts:103-124 | what was there stays; what was not is there exactly if a declared file goes to that filled path, and holds the first such file's template, filled |
| Scaffold.FillTellsYear | scripts/payroll-new-tax-year.ts:93-95 | a template that names the year once, and holds no other brace, gives different texts for different years |
| ScaffoldRuns.ScaffoldYear | scripts/payroll-new-tax-year.ts:218-284 | a dry run, a year outside 2000 to 2100, or a year published for the whole country and every region with tables of its own changes nothing; otherwise files first, then each barrel from what is on disk |
| ScaffoldRuns.WiredListsModules | scripts/payroll-new-tax-year.ts:131-157 | the text of a wired barrel imports and lists the modules beside it, each once, by ascending year |
| ScaffoldRuns.StepsWire | scripts/payroll-new-tax-year.ts:277-282 | after rewriting, every barrel lists the modules beside it and nothing else has changed |
| ScaffoldRuns.HistoryHolds | scripts/payroll-new-tax-year.ts:103-157 | after any calls, the tree is the starting one plus the files of the years called for |
| ScaffoldRuns.Confluence | scripts/payroll-new-tax-year.ts:93-158 | two histories over the same years, in any order and with any repetition, end in the same tree |
| ScaffoldRuns.OneFilePackIsApart | scripts/payroll-new-tax-year.ts:93-124 | a pack with one file a year, named by it, meets what the two theorems ask of paths |
| ScaffoldRuns.ExistingFilesStay | scripts/payroll-new-tax-year.ts:112-116 | no history changes a file that was there before and is no barrel |
| Decimal.SumExact | e2e/workflows/payroll-helpers.ts:119-131 | the loop refuses exactly if some text is no decimal; otherwise it prints, with four fraction digits, the exact sum of the addends, if and only if none of them loses its sign |
| Decimal.MatchSpelled | e2e/workflows/payroll-helpers.ts:140-146 | every decimal spelled out is read back as itself |
| Decimal.PaddedMatches | e2e/workflows/payroll-helpers.ts:142-144 | blanks around a decimal do not matter |
| Decimal.ExactIsShifted | e2e/workflows/payroll-helpers.ts:121-126 | what a decimal means, times ten for each fraction digit, is its digits read without the point |
| Decimal.PrintedExact | e2e/workflows/payroll-helpers.ts:127-130 | the printed sum means the total, for every integer, with four fraction digits |
| Decimal.PrintedReadsBackIff | e2e/workflows/payroll-helpers.ts:119-131 | summing a printed sum gives it back exactly unless it lies between minus one and zero |
| Decimal.TotalExactIff | e2e/workflows/payroll-helpers.ts:121-126 | the total is the exact sum if and only if no addend is negative with a zero integer part and a fraction; errors never cancel |
| Decimal.TotalAppend | e2e/workflows/payroll-helpers.ts:121-126 | the total of a concatenation is the sum of the totals |
| Decimal.TotalPermuted | e2e/workflows/payroll-helpers.ts:121-126 | the total does not depend on the order |
| Decimal.NegExact | e2e/workflows/payroll-helpers.ts:134-138 | negation flips the sign of what the text means |
| Decimal.NegCancelsIff | e2e/workflows/payroll-helpers.ts:119-138 | a value and its negation sum to zero exactly if it has an integer part or no fraction |
| Decimal.MinusHalfSums | e2e/workflows/payroll-helpers.ts:119-138 | `-0.5` alone sums to one half, and with its negation to one |

## Left out

- SanitizeReachesFixpoint: the hypothesis (every directive starts a statement) is sufficient, not necessary; an exact condition on the input would have to rescan the kept text, because removed spans can realign quotes, comments and dollar tags at a distance.
- SanitizePreservesMeaning: one way for the same reason; `QuotedValueLeavesAnOpenQuote` shows why the value must lex back to code.
- PgSession.Client.Query: a text changes `lock_timeout` only by SET, RESET, RESET ALL and DISCARD ALL, or by a DO block whose body holds such words outside its strings and comments (it then may), and the role only by naming it or by DISCARD; functions and procedures that set it (`set_config` among them), dynamic SQL inside DO blocks, defaults of roles and databases, Unicode-escaped names, and transaction control inside a body are not modelled. Other settings may change at will with every statement.
- AlwaysBoundedIff: the bound is the runner's own setting; a body that states a lock_timeout of its own has replaced it, whatever the number.
- Setup: an owner role is absent or a name; the source also takes the empty name for absent.
- ExecuteTrackedMigration: the wording of the final error, the backoff delay and the clock are not modelled; the catalog lookup of the owner is one query, and what its answer says is an arbitrary function.
- EvaluatePreflight: the text is one statement without transaction control, which a lint outside the model enforces.
- ReplayConverges: statements are "create if absent", "drop failed builds" and neutral ones; other idempotent statements are not modelled.
- ResealKeepsPlaintext: real encryption, base64 parsing and key validation are replaced by symbolic blobs; scope texts are taken as already trimmed.
- RetiringIsSafe: does not cover vendor roles, for which it is false, nor filing snapshots, whose plan is an arbitrary oracle (rewritten, drifted, current or refused); their compare-and-swap writes are covered by `RotateLeg`.
- NoLostUpdate: a row is taken to keep its owner between plan and write; unique constraints on parties are not modelled.
- RotateDataKey: that the run finishes, and with which tables, is stated for a database nobody else edits; among editors every commit is accounted for, and what a finished run has settled. Rows are read in any order, and a connection lost during a commit is not modelled.
- Advance: one method serves the two migration scanners, whose loops repeat the same branches.
- Texts are sequences of characters: UTF-16 code units, and `$` patterns in JavaScript replacement strings, are not modelled.
- WriteScaffoldFiles: directories are not modelled; they are made on demand, and no declared path names one.
- RewriteBarrel: the module pattern is an arbitrary function from file names to years; modules of the same year have no order, so `Confluence` asks for different years.
- Confluence: asks that file paths tell the year and that no barrel is a declared file or matches a pattern beside it.
- Message texts, logging, command-line parsing and console reports.
- `earlierPendingCreatesObject` and other matching on error prose; the upgrade gate and the orchestration around the runner.
- `migrationLockConfig`, `migrationRetryDelayMs`, `preflightDecisionFor`, `describe`: single expressions.
- All table declarations under `schema/src`, the web application, localization and PDF code.
