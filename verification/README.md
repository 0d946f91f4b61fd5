# WES backend: a verified model

WES is a FastAPI backend in which AI employees plan, implement, review and deploy changes.
This project models the parts of it that carry state machines, a crash-tolerant protocol or
text transformations, and proves what they keep. `dafny verify dfyconfig.toml` checks it.

| file | models |
|---|---|
| `Text.dfy` | optional values, results, and texts as lines |
| `Rename.dfy`, `Brackets.dfy`, `Splice.dfy` | the source modification engine: renaming, the bracket scanner, line splices |
| `Requirements.dfy` | requirements read off a task, the card generated for them, their verification |
| `Database.dfy`, `JobQueue.dfy` | the tables, a session with commit and rollback, the durable queue |
| `Planning.dfy` | decomposing a project and approving its plan |
| `JobProtocol.dfy`, `ExactlyOnce.dfy`, `JobRuns.dfy` | any number of workers on the queue, with crashes, recovery and overlapping control calls; project execution; whole runs |
| `Organization.dfy`, `OrgChart.dfy` | the reporting hierarchy and the chart built from it |
| `RateLimit.dfy`, `Cipher.dfy`, `Auth.dfy` | the rate limiter, the fallback cipher, refresh-token rotation |
| `Knowledge.dfy`, `Maintenance.dfy` | versioned documents; test-gated edits in a git sandbox, one and many |
| `Intent.dfy`, `Workflow.dfy` | what kind of task its words make it; handoffs, and the way from the words to the requirement gate |
| `Delivery.dfy`, `Overlaps.dfy` | approval to production; overlapping production deployments |

An object that the backend updates in place is a class, and each of its methods is proved
equal to a function of the old state; what the backend promises is proved of those functions
and of runs built from them.

## How the model reads the code

- **Time, randomness and the outside.** Clock readings, new identifiers, nonces, and what
  parsers, tests, builds, scans, git and deployments yield are parameters. HMAC, UTF-8,
  base64 and Python's parser are functions with stated laws (`Lawful`, `LawfulParser`).
- **Transactions.** A request commits or rolls back as a whole (`backend/app/core/database.py:48-62`).
  A failed login is the exception: its endpoint commits the count. Requests of one service are
  served one after the other in the model, except for the job queue and the plans, for refreshes
  (`Auth.OnceIfFoundLive`) and for production deployments (`Overlaps.OnceIfFoundNone`), whose
  checks and writes are steps of their own.
- **The git sandbox** is its list of commits and its working tree. Nothing in it is ignored, since
  it starts with a README only (`dev_git.py:92-101`), so whatever a test run leaves is staged by the
  next commit; `git clean` is taken to succeed.
- **The job queue** is modelled with every interleaving of committed transactions at the
  database's default isolation. A step is what one commit makes visible. Only the claim's UPDATE
  is guarded; a control call, a recovery, a recorded failure and a planning request check the rows
  they have loaded and write later. A flush writes the columns that differ from the row as it was
  loaded, keyed by the id (`JobQueue.Flushed`). A planning request is its write alone, whatever it
  had checked. A write that the database refuses - the row deleted, the key taken - aborts its
  request, which then is no step.
- **Rows** of jobs, items, tasks, runs, pipelines and releases are numbered in the order they
  are committed, where the backend draws unique identifiers. A worker is one run of a worker
  process: a restarted one is another worker, although it writes the same name into its rows.
- **The discipline** of the job protocol, needed for ended jobs to stay ended, for exactly-once
  and for draining: when a control call or a recovery writes a row, its check still holds of it,
  no running job is cancelled, and no job is re-queued while its worker is alive. The code
  enforces none of this, and the project handler never renews its heartbeat.
  `JobProtocol.PromiseKept`, `JobProtocol.CommitOverwrites`, `JobProtocol.RecordOverwrites`,
  `JobProtocol.WriteOverwrites` and `ExactlyOnce.OncePerItemExactly` say exactly what holds
  without it, and `JobRuns` ends with runs that show what goes wrong.

Where code and documentation disagree the model follows the code (files of `backend/app/services` unless a path is given):

- the rate limiter is documented as a fixed window (`backend/app/core/rate_limit.py:3`); it
  slides the window with every hit, and rejected hits count;
- removing a symbol is commented to take one blank line (`dev_modification.py:243`); it takes
  the whole run;
- inserting after an anchor promises the next line (`dev_modification.py:286`); a last line
  without a line break gets the snippet glued on;
- a bracket check that ends inside a string passes (`dev_modification.py:280`);
- the chart's roots are documented as having no manager (`ai_reporting.py:34`); they are those
  without an active one, and employees on a cycle are in no tree;
- a refresh token may be used once (`auth.py:135`), but one without an identifier is not
  rotated;
- every requirement is documented to be verified before a pull request is allowed
  (`dev_requirements.py:1-7`); for a new module none is extracted, so none is
  (`Workflow.GateCovers`);
- an edit is kept "on green" (`dev_maintenance.py:7-8`), but the gate reads counted
  failures and the compile status, not the status of the unit run.

## Model

| member | source | states |
|---|---|---|
| `Rename.MatchIsToken` | backend/app/services/dev_modification.py:338 | At the start of a token that no word character or dot precedes, the pattern matches exactly when that whole token is the old name. |
| `Rename.TokensOfJoin` | backend/app/services/dev_modification.py:338 | A text has one cutting into maximal word runs and single other characters. |
| `Rename.SubstituteIsTokenMap` | backend/app/services/dev_modification.py:338 | The left-to-right substitution equals the map over tokens: every maximal word run that is the old name and not an attribute access becomes the new name, and nothing else changes. |
| `Rename.RenamedText` | backend/app/services/dev_modification.py:324-345 | For a name of word characters an accepted rename returns the token map of the source with its last line ended; for every name, at the top level the new name is there and the old one is gone. |
| `Rename.RenameAccepted` | backend/app/services/dev_modification.py:324-345 | For a name of word characters: accepted if and only if the new name is an identifier, the source parses and defines the old name and not the new one, and the renamed text parses and defines the new one and not the old one. |
| `Rename.TokenMapExactly` | backend/app/services/dev_modification.py:338 | The substitution renames exactly the free tokens of every source if and only if all characters of the old name are word characters. |
| `Rename.SubstituteBack` | backend/app/services/dev_modification.py:338 | Substituting back restores the text if and only if the new name was not already a free token of it. |
| `Rename.RenameBackRestores` | backend/app/services/dev_modification.py:324-345 | For names of word characters, renaming back is accepted and gives the original file if and only if the file ended its last line and the new name was not a free token of it; for no name otherwise than with an ended last line. |
| `Brackets.AssertBalanced` | backend/app/services/dev_modification.py:252-281 | The one-pass scanner with stack and string state accepts exactly the snippets whose brackets outside string literals form a word of the balanced-bracket grammar. |
| `Brackets.GrammarRuns` | backend/app/services/dev_modification.py:262-279 | Reading a word of the grammar leaves every stack as it was. |
| `Brackets.AcceptedUnwinds` | backend/app/services/dev_modification.py:262-281 | A word that empties a stack is a balanced word followed by the closers of that stack, each with a balanced word after it; the derivations are constructed. |
| `Brackets.RunIsGrammar` | backend/app/services/dev_modification.py:260-281 | The stack machine ends with the empty stack if and only if the bracket word has a derivation. |
| `Brackets.PairsFit` | backend/app/services/dev_modification.py:260 | Two brackets are balanced exactly when they are one of the three pairs. |
| `Brackets.LiteralIsSkipped` | backend/app/services/dev_modification.py:266-273 | A string literal in code counts for nothing, whatever brackets, other quotes and escaped quotes are in it. |
| `Brackets.NeutralInsertion` | backend/app/services/dev_modification.py:252-281 | An accepted snippet that ends outside a string, put at a position outside a string, changes neither the verdict nor the final mode of any host. |
| `Brackets.InsertionKeepsVerdicts` | backend/app/services/dev_modification.py:252-281 | An accepted snippet leaves the verdict of every host at every code position unchanged if and only if it ends outside a string. |
| `Brackets.OpenStringAccepted` | backend/app/services/dev_modification.py:280-281 | The open string that is never checked: a snippet with an unclosed quote is accepted and hides an unbalanced closer of its host. |
| `Splice.InsertAfterAnchor` | backend/app/services/dev_modification.py:283-304 | The errors in the order of the code, or the lines with the ended snippet inserted right after the k-th line that contains the anchor; refused exactly when there is no such line. |
| `Splice.InsertBeforeAnchor` | backend/app/services/dev_modification.py:306-322 | The errors in the order of the code, or the lines with the ended snippet inserted right before the k-th line that contains the anchor; refused exactly when there is no such line. |
| `Splice.KthUnique` | backend/app/services/dev_modification.py:296-300 | Only one line is the k-th with the anchor. |
| `Splice.KthExactly` | backend/app/services/dev_modification.py:296-300 | The k-th line contains the anchor, and exactly k - 1 lines before it do. |
| `Splice.InsertionIsExact` | backend/app/services/dev_modification.py:301-303 | Cutting the result into lines gives the old lines with the block between them if and only if the line before the block was ended; then deleting the block gives the source back. |
| `Splice.BeforeAnchorExact` | backend/app/services/dev_modification.py:306-322 | Inserting before an anchor always inserts whole lines, and deleting them recovers the source. |
| `Splice.AfterAnchorExact` | backend/app/services/dev_modification.py:283-304 | Inserting after an anchor does so if and only if the line of the anchor ends with a line break. |
| `Splice.AfterAnchorGlues` | backend/app/services/dev_modification.py:298-303 | The other case on an input: the snippet is glued to the last line. |
| `Splice.ReplaceKeepsRest` | backend/app/services/dev_modification.py:219-233 | The lines of the new file are the old lines before the span, the lines of the snippet, and the old lines after the span, unchanged and in order, the last one ended. |
| `Splice.ReplaceBackRestores` | backend/app/services/dev_modification.py:219-233 | Where the parser finds the function again within the lines of the snippet, replacing it by its original lines gives the original with its last line ended if and only if it was found on all of these lines - a snippet with a comment before the function is not undone -, and the same file if and only if its last line was ended as well. |
| `Splice.AnchorFound` | backend/app/services/dev_modification.py:306-322 | An anchor of one line that occurs in the source is never missing: the insertion succeeds or is refused as unbalanced. |
| `Splice.FoundIsFirst` | backend/app/services/dev_modification.py:127-133 | The symbol found is the first with the name, and none is found only when there is none. |
| `Splice.BodyExactly` | backend/app/services/dev_modification.py:231 | What replaces a function is the snippet without the line breaks around it, and one line break. |
| `Splice.ReplaceAccepted` | backend/app/services/dev_modification.py:219-233 | Accepted if and only if source and snippet parse, the first symbol with the name is a function, and the result parses. |
| `Splice.RemoveAccepted` | backend/app/services/dev_modification.py:235-247 | Accepted if and only if the source parses, has a symbol with the name, and what is left parses. |
| `Splice.RemoveSymbol` | backend/app/services/dev_modification.py:235-247 | The loop over blank lines computes the specified cut: the span up to the end of the whole run of blank lines. |
| `Splice.RemoveKeepsRest` | backend/app/services/dev_modification.py:235-247 | Exactly the lines of the symbol and the run of blank lines after it are gone; an emptied file is one line break. |
| `Text.SplitJoin` | backend/app/services/dev_modification.py:92-94 | Cutting a text into lines inverts joining them, on every sequence of the shape it produces. |
| `Requirements.Extract` | backend/app/services/dev_requirements.py:47-99 | The line-by-line loop with its set of seen keys records the first candidate of every key, in the order offered. |
| `Requirements.FirstOfEachKeyExact` | backend/app/services/dev_requirements.py:51-54 | Every key offered is recorded, no key twice, and with what was offered first under it. |
| `Requirements.ExtractionIsComplete` | backend/app/services/dev_requirements.py:47-99 | A task has a date requirement if and only if one of its lines is about the date, likewise for the time; every text that a line quotes, or names after a display verb when it quotes none, is the marker of a requirement up to case, and there is no other text requirement; keys are distinct. |
| `Requirements.LineOffers` | backend/app/services/dev_requirements.py:57-98 | What a line adds is exactly what it asks for: the date, the time, the texts it quotes, or the phrase it names. |
| `Requirements.DateWords` | backend/app/services/dev_requirements.py:20 | A line is about the date exactly when it has `date`, alone or run together with one of the four prefixes, as a whole word. |
| `Requirements.TimeWords` | backend/app/services/dev_requirements.py:21 | A line is about the time exactly when it has `time`, alone or run together with one of the two prefixes, as a whole word. |
| `Requirements.WidgetWords` | backend/app/services/dev_requirements.py:92-93 | A phrase is about a widget exactly when it has one of the six nouns as a whole word. |
| `Requirements.FirstQuoted` | backend/app/services/dev_requirements.py:19 | The first quoted text is the leftmost run of 1 to 80 characters between two marks, and the search goes on behind it. |
| `Requirements.NoneQuoted` | backend/app/services/dev_requirements.py:19 | Nothing is found where nothing is quoted. |
| `Requirements.PiecesExactly` | backend/app/services/dev_requirements.py:57 | Lines are cut at line breaks and semicolons, and nowhere else: joined with separators they are the text again. |
| `Requirements.TaskLinesExactly` | backend/app/services/dev_requirements.py:57 | The lines of a task are those of its title and its description. |
| `Requirements.PhraseExactly` | backend/app/services/dev_requirements.py:22 | A phrase is what follows one of the five display verbs, in any case, and a blank. |
| `Requirements.StripExactly` | backend/app/services/dev_requirements.py:58 | Stripping takes white space from both ends and nothing else. |
| `Requirements.BuildRequirementsCard` | backend/app/services/dev_requirements.py:102-131 | The loop builds the card with one row for each requirement, or the generic row when there are none. |
| `Requirements.CardSatisfies` | backend/app/services/dev_requirements.py:102-136 | The card contains the marker of every requirement whose text has none of `< > { }`. |
| `Requirements.CardShowsHeading` | backend/app/services/dev_requirements.py:124-128 | The card contains its heading, less the angle brackets. |
| `Requirements.GeneratedCardVerifies` | backend/app/services/dev_requirements.py:34-136 | For every title and description whose extracted text markers have none of `< > { }`: once the card is inserted at an anchor, all extracted requirements hold of the new source. |
| `Requirements.CardIsNeutral` | backend/app/services/dev_requirements.py:102-131 | The card is accepted by the bracket scanner and leaves the verdict of every host as it was when what heading and markers leave in it does. |
| `Requirements.CardIsNeverUnbalanced` | backend/app/services/dev_requirements.py:102-131 | Inserting such a card, in particular one whose heading and markers have no bracket and no quote, is never refused as unbalanced. |
| `Requirements.TextMarkerKept` | backend/app/services/dev_requirements.py:112 | In a card of text rows a marker without `<` and `>` is kept if and only if it has no brace. |
| `Requirements.BraceMarkerLost` | backend/app/services/dev_requirements.py:112-113 | A marker in braces is stripped from the card, so its own requirement fails. |
| `JobQueue.FindKey` | backend/app/services/job_queue.py:45-50 | Finds a job with the idempotency key if there is one. |
| `JobQueue.CandidateExists` | backend/app/services/job_queue.py:69-77 | Whenever some job is due, one of highest priority and, among these, earliest creation exists. |
| `JobQueue.FirstDue` | backend/app/services/job_queue.py:69-77 | The job selected is a due one than which no due one has a higher priority or, with its priority, an earlier creation. |
| `JobQueue.NewIsDue` | backend/app/services/job_queue.py:51-61 | A new job is due from its creation on, and has no attempt. |
| `JobQueue.ClaimedExactly` | backend/app/services/job_queue.py:80-95 | A claimed job is its worker's and one attempt on, is not due, and is taken for an orphan only when its heartbeat is stale; the first claim sets its start. |
| `JobQueue.DoneExactly` | backend/app/services/job_queue.py:107-114 | A completed job carries its result and is never due or an orphan again. |
| `JobQueue.FailureExactly` | backend/app/services/job_queue.py:116-130 | With attempts left a failed job is due again 5, 15, 60 and then always 300 seconds later and not before, without it has failed; the first 2000 characters of the error are kept. |
| `JobQueue.ControlledExactly` | backend/app/services/job_queue.py:152-189 | Which jobs can be cancelled, paused, resumed and retried, and what becomes of them. |
| `JobQueue.RequeuedExactly` | backend/app/services/job_queue.py:132-148 | An orphan is a running job without a heartbeat or with one older than the cutoff; recovered it is due at once, without a worker, its attempts kept. |
| `JobQueue.UnmovedRow` | backend/app/services/job_queue.py:152-189 | Written to a row that nobody has moved since it was loaded, a control call or recovery has the effect it means to have. |
| `JobQueue.LateWrite` | backend/app/services/job_queue.py:152-189 | The write sets the status it means to set whatever the status has become since the check, and leaves attempts, heartbeat, progress and result as they have become. |
| `JobQueue.LateColumns` | backend/app/services/job_queue.py:132-189 | What a late cancel, pause, resume and recovery do to each column of the row. |
| `JobQueue.WrittenExactly` | backend/app/services/job_queue.py:132-189 | Exactly the rows that were looked at are written. |
| `JobQueue.OrphansExactly` | backend/app/services/job_queue.py:132-148 | A recovery finds every running job without a heartbeat since the cutoff, and no other. |
| `JobQueue.JobQueue.Enqueue` | backend/app/services/job_queue.py:36-62 | A known key leaves the table as it is and names the job that carries it; otherwise one queued job is appended. |
| `JobQueue.JobQueue.ClaimNext` | backend/app/services/job_queue.py:66-97 | Selects a due job that no due job precedes and claims it if and only if it is still queued by the time of the update; no claim exactly when nothing was due or the race was lost. |
| `JobQueue.JobQueue.TryClaim` | backend/app/services/job_queue.py:80-95 | The guarded update wins if and only if the row is still queued, and changes only that row. |
| `JobQueue.JobQueue.Fail` | backend/app/services/job_queue.py:116-130 | Back to the queue with backoff while the loaded row has attempts left, failed otherwise, written over the row as it is by then; no other row changes. |
| `JobQueue.JobQueue.RecoverOrphans` | backend/app/services/job_queue.py:132-148 | Exactly the running jobs without a heartbeat since the cutoff are found and counted, and each is re-queued over its row as it is by then. |
| `JobQueue.JobQueue.Apply` | backend/app/services/job_queue.py:152-197 | Cancel, pause, resume and retry: the error for a missing job and the refusal for a wrong status are decided by the row as it was loaded, the write hits the row as it is by then. |
| `JobQueue.PauseIsUndone` | backend/app/services/job_queue.py:162-177 | A paused job is never due; resuming it gives the job back as it was, due at once. |
| `JobQueue.RetryKeepsAttempts` | backend/app/services/job_queue.py:179-189 | A retry makes the job due but gives no attempts back: the next failure is final if and only if that attempt is the last. |
| `Planning.DecompositionService.Decompose` | backend/app/services/project_decomposition.py:140-233 | Refused exactly for a missing project and for a plan loaded as approved; otherwise the delete loop and the nested creation loops are the protocol's step from whatever others have committed by then. |
| `Planning.DecompositionService.ApprovePlan` | backend/app/services/project_decomposition.py:235-254 | Refused exactly for a missing project and without a decomposed plan; otherwise the protocol's step, and the answer is the execution job. |
| `Planning.DecomposedExactly` | backend/app/services/project_decomposition.py:140-233 | A decomposition deletes the items of its project that it had read, adds the new ones to the backlog, marks the plan, and touches no other project. |
| `Planning.ApprovedExactly` | backend/app/services/project_decomposition.py:235-254 | An approval marks the plan and, unless the execution was enqueued before, enqueues one job for it, due at once, with three attempts. |
| `Planning.BacklogIsNew` | backend/app/services/project_decomposition.py:147-160 | Decomposing again leaves a backlog of exactly the new items, and of those added since the old ones were read. |
| `JobProtocol.InvStep` | backend/app/services/job_queue.py:66-189 | Every step of any worker, producer, planner, recovery or control call keeps the invariant behind the next rows, without any discipline and however late a write is. |
| `JobProtocol.ClaimsAreExclusive` | backend/app/services/job_queue.py:66-97 | Over every interleaving, with crashes: each stay of a job in the queue is ended by at most one winning claim; `attempts` is the number of won claims; two workers that hold the same job won it in different stays. |
| `JobProtocol.AttemptsAreBounded` | backend/app/services/job_queue.py:66-189 | Over every interleaving: `attempts <= max(1, max_attempts) + recoveries + manual retries + overtaken writes`, strictly below while queued or paused; a write is overtaken when its check no longer holds of the row it hits. |
| `JobProtocol.PromiseKept` | backend/app/services/job_queue.py:116-189 | A job within `max(1, max_attempts) + recoveries + manual retries` stays within it at a step if and only if the step is no overtaken write that puts it back into the queue or on pause with no attempt left. |
| `JobProtocol.LiveStep` | backend/app/services/job_worker.py:36-62 | With the discipline: a worker that holds a job is the one its row names, the job is running, and it is the stay the worker won; and every running job is so held, unless the worker its row names is dead. |
| `JobProtocol.TerminalIsAbsorbing` | backend/app/services/job_queue.py:107-189 | With the discipline, no step but a manual retry changes a job that has ended. |
| `JobProtocol.CommitOverwrites` | backend/app/services/job_queue.py:107-114 | Without it: a finishing worker keeps the status of every ended job if and only if its own job was not cancelled or failed meanwhile. |
| `JobProtocol.RecordOverwrites` | backend/app/services/job_queue.py:116-130 | A worker that records a failure keeps the status of every ended job if and only if its own job had not ended, or had ended as the status it writes, or was loaded in that status, which then is not written. |
| `JobProtocol.WriteOverwrites` | backend/app/services/job_queue.py:132-189 | A control call or recovery keeps the status of every ended job if and only if no row it writes has ended by then, unless it cancels a cancelled one. |
| `JobProtocol.BeatHolds` | backend/app/services/job_queue.py:99-105 | A heartbeat keeps its job from being taken for an orphan until it is stale, and changes no other job. |
| `ExactlyOnce.ExecutionKeepsOnce` | backend/app/services/job_worker.py:154-168 | Only the commit of a project execution creates tasks, and it keeps at most one task for each item if and only if no item it read already has a task. |
| `ExactlyOnce.OncePerItemExactly` | backend/app/services/job_worker.py:136-176 | Over every interleaving, without any discipline: no item has two tasks if and only if no committed execution had read an item that has a task by then. |
| `ExactlyOnce.StartItemsOnce` | backend/app/services/job_worker.py:154-168 | Starting distinct items without a task keeps: a key names one job and goes with the work it names, an item has at most one task, a task has its workflow job. |
| `ExactlyOnce.StartedJobs` | backend/app/services/job_worker.py:154-168 | The k-th item started gets the k-th new task, and the k-th new job develops that task, due at once, with three attempts. |
| `ExactlyOnce.NotExecutedYet` | backend/app/services/job_worker.py:146-152 | With the discipline, a project whose execution job a worker holds has not been executed. |
| `ExactlyOnce.KeysStep` | backend/app/services/job_queue.py:45-62 | Every step but an execution keeps keys and workflow jobs unique, also overlapping planning requests. |
| `ExactlyOnce.OnceStep` | backend/app/services/job_worker.py:36-62 | Every disciplined step keeps the whole exactly-once invariant, whatever else is done to items and plans. |
| `ExactlyOnce.ProjectExecutionIsExactlyOnce` | backend/app/services/job_worker.py:136-176 | Over every disciplined run, with crashes, failed attempts, rollbacks, recoveries, and items added, changed and deleted on the work board: an item has exactly one task if it was in its project's backlog when the project's completed execution read it, and none otherwise; exactly one job develops each task, under its key, and none a task that there is not; at most one job executes each project. |
| `ExactlyOnce.ExecutionIsComplete` | backend/app/services/project_decomposition.py:235-254 | When the work board is left alone and an approved plan is not decomposed, a completed execution has left every item of its project that was not deleted with exactly one task. |
| `JobRuns.QueueDrains` | backend/app/services/job_queue.py:66-130 | From any state a disciplined run reaches, without new work, recovery, retry and pause, at most `Measure` claims, completions, failures and cancellations can follow in any interleaving; and where an idle worker can select nothing, none holds a job and every schedule time has passed, each job has ended, is on pause, or was left running by a worker that died. |
| `JobRuns.CanDrain` | backend/app/services/job_worker.py:36-62 | From any state a disciplined run reaches and any time on, some steps of workers, in the order of their times, settle every job: ended, on pause, or left running by a worker that died. |
| `JobRuns.SettledExactly` | backend/app/services/job_worker.py:36-62 | All jobs have ended, are on pause or were left by a dead worker if and only if none is queued and no worker holds one. |
| `JobRuns.DrainStep` | backend/app/services/job_worker.py:36-62 | The measure never grows on a step of a drain and falls on every productive one, also when an execution brings workflow jobs. |
| `JobRuns.StartAll` | backend/app/services/job_worker.py:154-168 | The handler's loop starts each item it has read once, inside the open transaction. |
| `JobRuns.ReadPart` | backend/app/services/job_worker.py:146-152 | The handler's SELECT reads exactly the backlog of its project. |
| `JobRuns.ClaimPart` | backend/app/services/job_worker.py:41-44 | Whatever others have committed by then, the claim is the protocol's step, and wins exactly when the protocol says. |
| `JobRuns.CommitPart` | backend/app/services/job_worker.py:51-53 | Whatever others have committed by then, the end of the handler, the completion and the commit are the protocol's step. |
| `JobRuns.RecordPart` | backend/app/services/job_worker.py:54-59 | Whatever others have committed by then, recording the failure on the row loaded after the rollback and committing it are the protocol's step. |
| `JobRuns.RunOnce` | backend/app/services/job_worker.py:36-62 | With nobody else committing meanwhile, the parts together are a disciplined run of the protocol that ends idle with nothing uncommitted; it does nothing only if no job is due; the claimed job ends completed, queued again or failed as its outcome and attempts say. |
| `JobRuns.SlowWorkerDuplicates` | backend/app/services/job_queue.py:132-148 | A run in which a slow worker is taken for dead and an item gets two tasks. |
| `JobRuns.StaleRecoveryDuplicates` | backend/app/services/job_queue.py:132-148 | A run in which two recoveries find the job of a dead worker, the second writes when the next worker is at work, and an item gets two tasks. |
| `JobRuns.StalePauseGrantsAttempt` | backend/app/services/job_queue.py:162-168 | A run in which a pause, checked before a claim and written after it, lets a job with one attempt make two, with no recovery or retry. |
| `JobRuns.StalePauseRevives` | backend/app/services/job_queue.py:162-168 | A run in which such a pause is written over a completion. |
| `JobRuns.StalePauseDuplicates` | backend/app/services/job_queue.py:162-168 | A run in which such a pause and a resume give an item two tasks, with no recovery. |
| `Organization.AIOrganization.Create` | backend/app/services/ai_organization.py:139-164 | A refused creation changes nothing; an accepted one adds the one employee. |
| `Organization.AIOrganization.Update` | backend/app/services/ai_organization.py:166-193 | A refused update changes nothing; an accepted one changes the named fields and the version. |
| `Organization.AIOrganization.Delete` | backend/app/services/ai_organization.py:195-208 | The loop over the listing promotes exactly the listed direct reports and then marks the employee deleted. |
| `Organization.CreatedExactly` | backend/app/services/ai_organization.py:139-164 | Accepted if and only if the code is new, deleted employees included, role and department exist, and the manager is active or, for a head's role, missing; the employee is stored as given and no other changes. |
| `Organization.UpdatedExactly` | backend/app/services/ai_organization.py:166-193 | Accepted if and only if the employee is active, what is named exists, and the manager named may manage the role the employee then has; what is named is set, the rest kept. |
| `Organization.DeletedExactly` | backend/app/services/ai_organization.py:195-208 | The employee is marked, its listed direct reports get its manager, and nothing else about anyone changes. |
| `Organization.ListingIsComplete` | backend/app/repositories/ai.py:93-112 | With at most 10,000 active employees the listing has every direct report. |
| `Organization.DeletePreservesHierarchy` | backend/app/services/ai_organization.py:195-208 | Deleting from an acyclic hierarchy keeps it acyclic, and keeps "is above" between all survivors in both directions. |
| `Organization.DeleteKeepsClosed` | backend/app/services/ai_organization.py:195-208 | No active employee points at a deleted manager afterwards if and only if every direct report was listed. |
| `Organization.CreateKeepsHierarchy` | backend/app/services/ai_organization.py:139-164 | Creating an employee closes no cycle and leaves nobody with a deleted manager. |
| `Organization.UpdateKeepsAcyclic` | backend/app/services/ai_organization.py:181-184 | A new manager keeps the hierarchy acyclic if and only if it is neither the employee nor one of its descendants. |
| `Organization.UpdatesCanMakeACycle` | backend/app/services/ai_organization.py:118-121 | Only self-reporting is refused: two accepted updates make two employees manage each other. |
| `Organization.RequestKeepsHierarchy` | backend/app/services/ai_organization.py:139-208 | Each sensible request keeps the hierarchy acyclic and free of deleted managers. |
| `Organization.HierarchyOverRuns` | backend/app/services/ai_organization.py:139-208 | Over every run of create, update and delete in which no update puts someone under a descendant and at most 10,000 are active on a delete: acyclic, no active employee points at a deleted manager, and employee codes are distinct. |
| `OrgChart.Chart` | backend/app/services/ai_reporting.py:33-45 | The one pass that appends nodes in place leaves in every node exactly the employees under it, in listing order, and in the roots exactly those without an active manager. |
| `OrgChart.UnderInOrder` | backend/app/services/ai_reporting.py:38-45 | Reports and roots keep the order of the listing. |
| `OrgChart.VisitIsUnique` | backend/app/services/ai_reporting.py:38-45 | A walk from the roots comes to an employee along at most one path. |
| `OrgChart.VisitTo` | backend/app/services/ai_reporting.py:38-45 | In an acyclic hierarchy a path from a root to every active employee is constructed. |
| `OrgChart.OnCycleNotVisited` | backend/app/services/ai_reporting.py:38-45 | An employee on a cycle is on no path from a root. |
| `OrgChart.WalkIsExact` | backend/app/services/ai_reporting.py:33-45 | The walk visits every active employee exactly once, each under its own manager, if and only if the manager relation is acyclic. |
| `RateLimit.RateLimiter.Dispatch` | backend/app/core/rate_limit.py:35-62 | The table and the verdict after a request, on or off. |
| `RateLimit.ListIsHistory` | backend/app/core/rate_limit.py:47-49 | However long ago the list of a key was pruned, pruning it now gives the pruning of the whole hit history. |
| `RateLimit.PrunedListIsWindow` | backend/app/core/rate_limit.py:47-49 | After a request the list of its key is the full hit history of the key, rejected hits included, filtered to the last 60 seconds. |
| `RateLimit.AdmittedByHistory` | backend/app/core/rate_limit.py:47-62 | A request is let through if and only if the hits of its key in the last 60 seconds, its own included, are within the limit. |
| `RateLimit.AdmittedExactly` | backend/app/core/rate_limit.py:35-62 | A request is let through if and only if the limiter is off, or the requests of its client and route group in the 60 seconds before it, and it itself, are no more than the limit of that group. |
| `RateLimit.WindowNeverExceeded` | backend/app/core/rate_limit.py:35-62 | With a monotone clock, no set of admitted requests of one key that spans under 60 seconds is larger than the limit. |
| `RateLimit.KeysAreIndependent` | backend/app/core/rate_limit.py:44-49 | A verdict is the one the requests of its key alone would have got. |
| `Cipher.GenerateKeystream` | backend/app/core/secrets.py:87-94 | The loop yields exactly the requested number of bytes of the keystream, or overflows its counter. |
| `Cipher.KeystreamPrefix` | backend/app/core/secrets.py:87-94 | A shorter keystream is a prefix of every longer one. |
| `Cipher.XorTwice` | backend/app/core/secrets.py:71-85 | XOR with the same bytes undoes itself, and is XOR byte by byte. |
| `Cipher.XorMasks` | backend/app/core/secrets.py:71-94 | The data is the text with byte i XORed with byte `i % 32` of the keyed hash of the nonce and the counter `i / 32`, and no other. |
| `Cipher.CountersAreDistinct` | backend/app/core/secrets.py:92 | Distinct counters are written as distinct bytes. |
| `Cipher.FramingRoundTrip` | backend/app/core/secrets.py:73-78 | The slices at 16 and 48 recover nonce, tag and data. |
| `Cipher.DecryptInvertsEncrypt` | backend/app/core/secrets.py:66-85 | For every secret, nonce and text the keystream can cover, decrypting an encrypted text returns it. |
| `Cipher.EncryptedIsToken` | backend/app/core/secrets.py:66-74 | A token decodes to the nonce, the tag of nonce and data, and the data, every byte of the text masked by the keyed hash of the nonce and its own counter. |
| `Cipher.AcceptedExactly` | backend/app/core/secrets.py:76-85 | A token is accepted, with its text, if and only if its tag is right and its data unmask to the UTF-8 of that text. |
| `Cipher.TamperingIsDetected` | backend/app/core/secrets.py:76-85 | A token is refused for its integrity if and only if its tag is not the tag of its nonce and data. |
| `Cipher.Encrypt` | backend/app/core/secrets.py:66-74 | The token of the specification, masked byte by byte, or the overflow of the counter. |
| `Cipher.Decrypt` | backend/app/core/secrets.py:76-85 | The verdict of the specification, with its errors in the order of the code. |
| `Auth.AuthService.Login` | backend/app/services/auth.py:100-120 | The whole new state and answer: lookup, disabled, locked, wrong password counted, tokens issued. |
| `Auth.AuthService.Refresh` | backend/app/services/auth.py:122-148 | The whole new state and answer of a rotation, accepted or refused. |
| `Auth.AuthService.Logout` | backend/app/services/auth.py:150-163 | The loop over the rows revokes exactly the rows of the employee and moves its version on. |
| `Auth.LoginExactly` | backend/app/services/auth.py:100-120 | Accepted if and only if the employee exists, is active, has fewer than five failures counted and the password is right; only then a token is issued; a wrong password, and nothing else, is counted, and an accepted login sets the count back. |
| `Auth.LockedExactly` | backend/app/services/auth.py:107-115 | Over every run: a login of an active employee is refused as locked if and only if five wrong passwords were given since its last accepted login. |
| `Auth.LockedForever` | backend/app/services/auth.py:107-108 | Over every run a locked employee stays locked. |
| `Auth.RefreshExactly` | backend/app/services/auth.py:122-148 | Accepted if and only if the token decodes, its employee exists and is active, its version is the current one, and the row it names is there and not revoked; then that row is revoked and a new token of the same employee and version issued. |
| `Auth.LogoutOutdates` | backend/app/services/auth.py:150-163 | After a logout no token of the employee from before is accepted, also one without an identifier. |
| `Auth.LoginAddsOne` | backend/app/services/auth.py:59-120 | A login that succeeds adds one unrevoked token to its employee and none to anyone else. |
| `Auth.RefreshKeepsCount` | backend/app/services/auth.py:122-148 | An accepted refresh keeps the number of unrevoked tokens of every employee if and only if its token carries an identifier whose row belongs to its subject. |
| `Auth.LogoutZeroes` | backend/app/services/auth.py:150-163 | A logout leaves its employee no unrevoked token and everyone else theirs. |
| `Auth.SpentForever` | backend/app/services/auth.py:100-163 | Over every run a revoked token stays revoked. |
| `Auth.RedeemedAtMostOnce` | backend/app/services/auth.py:122-148 | Over every serial run of login, refresh, logout and deactivation, a refresh token is redeemed at most once. |
| `Auth.NeverAfterLogout` | backend/app/services/auth.py:122-163 | Over every serial run a refresh token is never redeemed after a later logout of its owner. |
| `Auth.UnmovedRefresh` | backend/app/services/auth.py:122-148 | A refresh with nothing between its checks and its write is the step of the service. |
| `Auth.OnceIfFoundLive` | backend/app/services/auth.py:122-163 | Over every interleaving of requests with the checks and writes of refreshes: tokens are redeemed at most once, and never after a logout of their owner, if and only if every write of a refresh finds the row of its token unrevoked. |
| `Auth.RacingRefreshes` | backend/app/services/auth.py:139-148 | Two refreshes of one token that both read its row before either writes it redeem it twice and leave two live tokens; one after the other the second is refused. |
| `Auth.TokenWithoutIdIsReusable` | backend/app/services/auth.py:139-148 | A token without an identifier is accepted again after it was accepted. |
| `Knowledge.KnowledgeService.Create` | backend/app/services/knowledge.py:184-234 | Version 1 of the document and its snapshot. |
| `Knowledge.KnowledgeService.Update` | backend/app/services/knowledge.py:236-271 | A new version and its snapshot if and only if a title is given or the content differs. |
| `Knowledge.KnowledgeService.Restore` | backend/app/services/knowledge_versions.py:54-75 | The text of the version as a new version with its snapshot, or one of the two errors and no change. |
| `Knowledge.CreatedExactly` | backend/app/services/knowledge.py:184-234 | A new document is stored with its text as version 1, and its snapshot. |
| `Knowledge.UpdatedExactly` | backend/app/services/knowledge.py:236-271 | Every text given is stored and the others kept; there is a new version, with a snapshot of what is stored, if and only if a title or another content is given. |
| `Knowledge.SavedKeeps` | backend/app/services/knowledge.py:236-284 | Saving the next version of one document keeps the history of every document complete. |
| `Knowledge.HistoriesAreComplete` | backend/app/services/knowledge.py:184-284 | Over every run: each history has exactly one snapshot for each version 1 to the current one, in order, the newest is the current text, and the table of snapshots is append-only. |
| `Knowledge.VersionFound` | backend/app/services/knowledge_versions.py:43-52 | A version is found if and only if it is between 1 and the current one, and it is the snapshot of that number. |
| `Knowledge.RestoreExact` | backend/app/services/knowledge_versions.py:54-75 | Restoring succeeds exactly for versions 1 to the current one and makes the text that of the version. |
| `Knowledge.RestoreIsUndone` | backend/app/services/knowledge_versions.py:54-75 | Restoring the version that was current before brings the text back. |
| `Maintenance.CodeMaintenanceService.ModifyFile` | backend/app/services/dev_maintenance.py:88-175 | Every end of an edit, with commits, working tree, answer and change record: refused, no-op, committed with what the test run leaves in the sandbox, reset to the checkpoint, or stopped by an exception before or after the commit, at the verdict or at the change record. |
| `Maintenance.EditIsAllOrNothing` | backend/app/services/dev_maintenance.py:88-175 | From any sandbox: an edit ends with nothing changed, or with one new commit that changes only the file and is not refused by the gate, if and only if it does nothing, or its commit is taken back and there were no uncommitted changes, or its commit stays unrefused and there were none but to its file. |
| `Maintenance.CleanEdit` | backend/app/services/dev_maintenance.py:88-175 | From a sandbox without uncommitted changes that is so if and only if no exception stops the edit after the write, nor after the commit when the tests refuse it; so it is whenever the edit answers without an exception. |
| `Maintenance.AnswerTells` | backend/app/services/dev_maintenance.py:154-175 | An answer says it was rolled back exactly when the commit was taken back, and otherwise that nothing failed in a commit that stays. |
| `Maintenance.RecordedExactly` | backend/app/services/dev_maintenance.py:154-175 | The change is on record as reverted exactly when the commit was taken back, as applied exactly when it stays, for an edit with a task that answers. |
| `Maintenance.RefusedExactly` | backend/app/services/dev_maintenance.py:105-128 | Each error has its cause, in the order of the code; an answer after a test run carries its counts. |
| `Maintenance.CountsAdd` | backend/app/services/dev_maintenance.py:136-141 | Passed and failed tests are added up over the runs; a run that did not fail counts no failure. |
| `Maintenance.CommitConfined` | backend/app/services/dev_git.py:136-141 | A commit that stays changes only its file if and only if nothing else was uncommitted. |
| `Maintenance.RollbackLoses` | backend/app/services/dev_git.py:143-148 | A commit that is taken back takes along exactly what was uncommitted before the edit. |
| `Maintenance.RollbackRestores` | backend/app/services/dev_git.py:109-148 | Rolling back to the checkpoint undoes whatever was written, deleted and committed since, if and only if the sandbox had no uncommitted changes at the checkpoint. |
| `Maintenance.LeftIsDirt` | backend/app/services/dev_maintenance.py:130-153 | Over every sequence of edits from a sandbox without uncommitted changes, these are exactly what the last test runs and the edits stopped before their commit have left. |
| `Maintenance.CommitsConfined` | backend/app/services/dev_maintenance.py:126-153 | Over every such sequence, a commit that stays is confined to its file if and only if the edits before it have left nothing behind but in that file. |
| `Maintenance.NextCommitConfined` | backend/app/services/dev_review.py:205-260 | Right after an edit that was kept, the next commit is confined to its file if and only if the test run of the former has left nothing but in that file. |
| `Maintenance.NextCommitSweeps` | backend/app/services/dev_review.py:205-260 | Beside its own file the next commit changes exactly what that test run has left, the bytecode of a compiled file for one. |
| `Maintenance.TidyEdits` | backend/app/services/dev_maintenance.py:126-153 | When test runs leave nothing and no exception stops an edit at its write, every commit that stays is confined to its file. |
| `Maintenance.GateExact` | backend/app/services/dev_maintenance.py:142-152 | The gate refuses if and only if a run with status failed counted a failure or was the compile run. |
| `Maintenance.CrashedRunPasses` | backend/app/services/dev_maintenance.py:142-152 | A unit run that failed without a counted failure is not refused. |
| `Workflow.HandoffTable.Record` | backend/app/services/development_service.py:492-526 | The rows of the task are replaced, whatever they were, by the handoffs of its assigned stages in the order of the query, which is the only one when the sessions are numbered apart. |
| `Workflow.OrderMatters` | backend/app/services/development_service.py:500-505 | When the sessions of a task are numbered apart, any two answers of the query ordered by number are the same. |
| `Workflow.EqualNumbersLeaveOpen` | backend/app/services/development_service.py:545 | A task that is run again numbers its sessions from 0 again; two answers of the query can then give different handoffs. |
| `Workflow.HandoffsAreNeighbours` | backend/app/services/development_service.py:506-525 | The handoffs are the adjacent pairs of the acting employees with repeats collapsed: a contiguous chain numbered from 0. |
| `Workflow.HandoffsExplained` | backend/app/services/development_service.py:506-525 | Every change of employee between neighbouring stages has its handoff, with the roles of both stages and the stage that takes over, and there is no other. |
| `Workflow.AssignedExactly` | backend/app/services/development_service.py:508-510 | The assigned stages are those with an employee, every one of them and in their order. |
| `Workflow.Resolve` | backend/app/services/development_service.py:579-604 | The kind of the task is decided by its words and the page found for it; its requirements are those extracted from the words when there is code to change, and none otherwise. |
| `Workflow.DevelopmentTask.RunWorkflow` | backend/app/services/development_service.py:536-831 | From the words of the task: a pull request is drafted if and only if the implementation and the other stages succeed, every requirement the task is held to holds of the generated sources, and drafting succeeds; for a task that refers to existing code or brings a modification spec, a drafted one satisfies every requirement of its title and description; each final status is tied to its cause. |
| `Workflow.GateCovers` | backend/app/services/dev_intent.py:159-222 | Passing the gate means that all that title and description ask for holds of the sources, whatever these are, if and only if the task refers to existing code or brings a modification spec, or asks for nothing. |
| `Intent.RefersByWord` | backend/app/services/dev_intent.py:33-47 | A task with one of the thirteen signal words among its words, in any case, is about existing code: its page is changed, and without a page it fails. |
| `Intent.TokenExactly` | backend/app/services/dev_intent.py:82-84 | A word is found in a text exactly when it is a token: a maximal run of lower-case letters and digits. |
| `Intent.ReferencesExactly` | backend/app/services/dev_intent.py:163-176 | A task refers to existing code if and only if one of the thirteen signal words is a token of it, in any case, or it names a file. |
| `Intent.RefersByPath` | backend/app/services/dev_intent.py:170 | So is a task that names a file with one of the five extensions. |
| `Workflow.NewModuleUnchecked` | backend/app/services/development_service.py:726 | A task of a quoted letter is a new module, and passes the gate with sources that lack the letter. |
| `Workflow.PageTaskPasses` | backend/app/services/dev_intent.py:104-222 | A task for which a page is found is implemented and passes the gate, when its text markers have none of `< > { }` and heading and markers leave the bracket check neutral. |
| `Workflow.GeneratedChangePassesGate` | backend/app/services/development_service.py:722-766 | A task whose changes contain a file with its generated card, and whose text markers have none of `< > { }`, passes the requirement gate. |
| `Intent.AskedNotEmpty` | backend/app/services/dev_requirements.py:133-136 | No requirement read off a task holds of an empty source. |
| `Delivery.DeliveryService.Decide` | backend/app/services/dev_review.py:340-404 | An approval needs an evaluated gate that is eligible or overridden; other decisions never do. |
| `Delivery.DeliveryService.Deploy` | backend/app/services/devops_deploy.py:85-147 | Every end of a deployment: waiting for an approver, no artifact, failed, deployed, or broken off by an exception with its run left in the table. |
| `Delivery.DeliveryService.ApproveProduction` | backend/app/services/devops_deploy.py:149-163 | A waiting run is superseded by a new one with the approver. |
| `Delivery.DeliveryService.Rollback` | backend/app/services/devops_deploy.py:207-251 | The whole new state of a rollback and its record. |
| `Delivery.RollbackServes` | backend/app/services/devops_deploy.py:207-251 | A rollback puts its release in service if and only if it is recorded as completed; one that is not still takes the run that was in service out of it. |
| `Delivery.RollbackAccepted` | backend/app/services/devops_deploy.py:207-251 | A rollback is accepted if and only if its release exists and its deployment does not raise. |
| `Delivery.CurrentExactly` | backend/app/services/devops_deploy.py:207-251 | In service is the last run that is deployed in the environment. |
| `Delivery.DeliveryService.RunPipeline` | backend/app/services/devops_pipeline.py:83-252 | The stage-by-stage run, stopped by any failing or raising stage, equals the specified world. |
| `Delivery.DeliveryService.DeployProduction` | backend/app/services/devops_pipeline.py:268-302 | The production deployment of a waiting pipeline, with its log and release; refused otherwise. |
| `Delivery.DecidedExactly` | backend/app/services/dev_review.py:340-404 | Accepted if and only if the task exists and, for an approval, its gate was evaluated and is eligible or overridden; the task gets the status decided and no other moves. |
| `Delivery.DeployedExactly` | backend/app/services/devops_deploy.py:85-147 | One run of this release, environment and pipeline is added, deployed if and only if its artifact was verified and an approver given where needed; only a deployment in production releases. |
| `Delivery.ApprovedExactly` | backend/app/services/devops_deploy.py:149-163 | Accepted if and only if the run waits and its deployment does not raise; a new run of the same release, environment and pipeline supersedes it. |
| `Delivery.PipelineExactly` | backend/app/services/devops_pipeline.py:83-252 | The stages are logged in order, each check as passed exactly when it succeeded, nothing after a failed one but the skipped integration tests; the pipeline waits for production if and only if build, tests and scan succeeded, staging was deployed and verified, and nothing raised. |
| `Delivery.ProductionExactly` | backend/app/services/devops_pipeline.py:268-302 | Accepted if and only if the pipeline waits and the deployment does not raise; it passes exactly when its run is deployed, and its log says which. |
| `Delivery.DeployKeepsReleases` | backend/app/services/devops_deploy.py:134-147 | A deployment keeps the rule that a release is marked released if and only if some run of it was deployed in production. |
| `Delivery.PipelineKeeps` | backend/app/services/devops_pipeline.py:83-252 | A pipeline run of an approved task keeps the invariant, wherever it stops. |
| `Delivery.ProductionKeeps` | backend/app/services/devops_pipeline.py:268-302 | A production deployment keeps the invariant: its pipeline stops waiting, so it cannot be deployed to production again. |
| `Delivery.HandledKeeps` | backend/app/services/devops_pipeline.py:83-302 | Every decision, pipeline run, production deployment, late approval and rollback keeps the invariant. |
| `Delivery.DeliveryOverRuns` | backend/app/services/devops_pipeline.py:46-302 | Over every run: a stage log is a prefix of the declared stages, with the production deployment after all of them at most; a pipeline awaits production only with all eleven logged; its task has an approval whose gate was eligible or overridden; it is attempted in production at most once; while it waits and once it went there, none of its stages failed and all it needs passed, and it counts as passed only if it went live; what is deployed where approval is required has an approver; a release is marked released if and only if it was brought into production. |
| `Overlaps.UnmovedProduction` | backend/app/services/devops_pipeline.py:268-302 | A production deployment with nothing between its check and its write is the step of the service. |
| `Overlaps.WriteKeeps` | backend/app/services/devops_pipeline.py:268-302 | A write whose check was passed earlier keeps the invariant of the serial runs if and only if it is rolled back or finds no production run of its pipeline. |
| `Overlaps.OnceIfFoundNone` | backend/app/services/devops_pipeline.py:268-302 | Over every interleaving of requests with the checks and writes of production deployments: every pipeline has at most one production run, past the approval check or waiting before it, if and only if no write finds one; and then the whole invariant of the serial runs holds. |
| `Overlaps.RacingDeployments` | backend/app/services/devops_pipeline.py:273 | Two requests that both read a waiting pipeline both deploy it; one after the other the second is refused. |

## Left out

- Requirements.TextMarkerKept: says nothing of markers with `<` or `>`, nor of cards with braces of their own - in the heading or a date or time row -, where a marker can occur in the markup by accident.
- ExactlyOnce.ProjectExecutionIsExactlyOnce: counts the tasks that project executions create; a task made through the API for an item is not counted, and the endpoint that enqueues a workflow for an arbitrary task identifier (`backend/app/api/v1/development.py:105-119`) is taken to name a task that exists.
- JobRuns.RunOnce: says what one worker does when nothing interferes; for interference, each of its parts is proved to be the protocol's step from whatever others have committed by then. How a handler ends is an input.
- Rename.RenameBackRestores: says nothing more of names with a character that `\w` does not match, which Python allows - a combining mark, say; for these the substitution is no map over tokens (Rename.TokenMapExactly).
- Workflow.DevelopmentTask.RunWorkflow: the stages other than intent, implementation and verification are one input, what they yield or that one of them raises, and so is drafting the pull request; what an explicit spec or a new module generates is an input.
- Workflow.PageTaskPasses: which page matches the words best, and the heading made of the title, are inputs.
- Auth.RedeemedAtMostOnce: is about requests served one after the other; Auth.OnceIfFoundLive is about overlapping ones.
- Auth.NeverAfterLogout: likewise; Auth.OnceIfFoundLive has the exact condition.
- Overlaps.OnceIfFoundNone: of the delivery requests only production deployments of a pipeline overlap others; late approvals, rollbacks and decisions are served at once.
- Planning.DecompositionService.Decompose: of a plan only the work items and the status are kept.
- Delivery.DeliveryOverRuns: is about requests served one after the other, for overlapping deployments see Overlaps.OnceIfFoundNone; work on a task is any change of its status but approval, which only a decision gives.
- The operations that add a function, a method or imports to a module: they are splices of the same kind with more text layout.
- Python's parser, the general regular-expression engine, HMAC, SHA-256, base64, UTF-8, Fernet, bcrypt and JWT: laws or inputs.
- Line breaks other than `\n`, and letters, digits and white space beyond ASCII in the requirement patterns.
- Status and progress messages, timestamps that decide nothing, names, responsibilities, capabilities and KPIs.
- Epics, sprints, task codes and assignments of a decomposition; only its work items are kept.
- The stages of a development workflow before the requirement gate, beyond what they yield; pull-request status, memory and learning.
- The pipeline job enqueued on an approval, release notes, artifacts, images, incidents and the ordering of releases; a pipeline run is a request of its own.
- Uniqueness of document codes and slugs, tags, categories, access logs, and the review cycle of documents.
- Budget limits, permissions, dashboards, the frontend, provider adapters, health metrics and streaming.
