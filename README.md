# Election tables, tokens and candidate registration

This Dafny project models the core of a small school-election web application. That core has three parts.

- **The token ledger.**
  - Administrators define *token selectors*. Each selector names up to four group tiers.
  - The app issues voting tokens. Each token is scoped by the `$`-joined text of its selector's tiers.
  - It issues either a batch of 101 tokens, cycling through every selector, or a single token for one selector.
  - A token string can be looked up. The result is "invalid", "already used" or the token's record.
- **The read-only reports.**
  - Per-candidate vote totals, ordered by class, then office, then count descending.
  - The offices that have candidates in a given class, ordered by office sort key.
- **Candidate and write-in registration.**
  - An ordered chain of checks either refuses a submission or adds exactly one row.
  - A mapping from an office's ballot type to the name fields the form shows.
  - Deletion of a candidate.

Modules:

- `Common`: option and result types, the first match of a query, filtering, duplicate removal, and an insertion sort under a total preorder (standing in for ORDER BY). It also holds splitting and joining on a one-character delimiter, with the lemma that splitting undoes joining.
- `Models`: the rows as datatypes and the lookup class methods as functions. Three classes hold the tables the core changes in place: `TokenLedger` (Tokenlist), `SelectorTable` (Tokenlistselectors) and `CandidateTables` (Candidate, WriteinCandidate, Votes).
- `Queries`: the summary tally and the offices-for-a-class query.
- `Tokens`: the token screens in `election1/misc/view.py`.
- `Registration`: the candidate screens in `election1/candidate/view.py`.

The environment becomes parameters:

- The token generator is `draw: nat -> string`, the text of the i-th token it returns. A single issue takes the token as a parameter.
- The clock is the integer `now`. Election dates are integer timestamps, as the `Dates` table stores them.
- Whether a commit succeeds is the boolean `storageOk`.
- Inserting a token whose text is already present is what makes a token insert fail, through the unique constraint on `Tokenlist.token`.
- Host and port of the cast link are text parameters.
- Table keys handed out by the database are modelled as autoincrement counters (`nextId`). In the model, clearing a table leaves its counter where it was.
- Offices, classes and ballot types are looked up by their primary keys. `Models.UniqueConfigKeys` states that no two rows of one of these tables share a key. Under it, the first match a lookup returns is the only one (`Queries.FindOfficeUnique`).

In these points the code behaves as follows, and so does the model:

- The batch build always issues rows 0 to 100, in a loop of 101 passes. Row i takes the scope of selector `i % k`, where k is the number of selectors.
- With no selectors, the ledger has already been emptied when `row % 0` fails before the first insert. The model reports that as a failed build with an empty ledger.
- The first failed token insert ends the build. The rows inserted before it stay committed.
- Looking up a token whose vote was submitted returns the error "Token has already been used".
- A selector is refused when its primary tier is the "Please select" placeholder, or when the field is absent (the NOT NULL column). An empty primary tier is accepted and then drops out of the scope string.
- `candidate_view` tests `form.errors` for a CSRF entry without calling `validate()` first (`election1/candidate/view.py:146`). WTForms fills `errors` only inside `validate()`, so for the code as written this branch never fires. The model keeps the branch as the input flag `csrfError`, which is always false for the source as written.
- Offices of ballot type "Measure" are shown the first-name-only fields. The registration refuses an empty last name unless the ballot type is exactly "Single Name". `Registration.MeasureOfficeNeedsLastname` states the two together.
- `deletecandidate` deletes whatever the election dates are. The add screen's message mentions deleting, but the delete view reads no dates.
- Deleting a candidate sets the candidate key of its votes to NULL and keeps the votes, which is the ORM's default for that relationship.

## Model

| member | source | states |
|---|---|---|
| Models.CheckDates | election1/models.py:332-335 | The definition: dates are set exactly when the Dates table has a record. |
| Models.AfterStartDate | election1/models.py:323-330 | The definition: true exactly when there is a dates record and `now` is strictly after the first record's start. |
| Models.UniqueConfigKeys | election1/models.py:10-84 | The definition: no two offices, no two classes and no two ballot types share a primary key. |
| Models.GetBallotTypeName | election1/models.py:118-126 | A name comes back only from an office with that key and a ballot type row that office points to. There is none without a key or for an unknown office, and a None result means one of those or a missing ballot type. |
| Models.ToDict | election1/models.py:388-397 | The record carries the row's key, scope and token, and has a submission time exactly when the row has one. |
| Models.GetTokenlistRecord | election1/models.py:400-414 | "Invalid token" exactly when no row holds the token. For the first row holding it: "Token has already been used" exactly when it has a submission time, and otherwise exactly that row's record, with no submission time. |
| Models.LookupByUniqueToken | election1/models.py:406-414 | With unique tokens, looking up any row's token gives "already used" if that row was submitted, and that row's record otherwise. |
| Models.LookupAppended | election1/models.py:406-414 | A token that was absent, once appended unsubmitted, is found with exactly its record. |
| Models.CheckExistingCandidate | election1/models.py:216-222 | The definition: some candidate in the class has this first and last name. The office plays no part. |
| Models.CheckExistingWritein | election1/models.py:367-373 | The definition: some write-in has this name, class and office. |
| Models.HasWriteinPlaceholder | election1/models.py:182-197 | The definition: a "Writein"/"Candidate" row exists for this class and office. |
| Models.WithWriteinPlaceholder | election1/models.py:182-197 | The definition: the table as it is when the placeholder exists, and otherwise with one placeholder row appended under the next key. Its properties are the two lemmas below. |
| Models.DetachVotes | election1/models.py:157 | The same votes in the same order. Each vote for the deleted candidate becomes the same vote with a NULL candidate, so none references it afterwards. Votes for other candidates are untouched. |
| Models.WriteinPlaceholderEnsured | election1/models.py:182-197 | Afterwards a "Writein"/"Candidate" row exists for the class and office. The table is unchanged if one already existed, and grows by exactly one row otherwise. |
| Models.WriteinPlaceholderIdempotent | election1/models.py:182-197 | A second placeholder insert adds nothing, whatever key it would have used. |
| Models.TokenLedger.DeleteAll | election1/misc/view.py:106-107 | The ledger is empty, and it still has unique tokens and keys below the counter. |
| Models.TokenLedger.Add | election1/models.py:380-383 | The insert succeeds exactly when no row holds the token. It then appends one unsubmitted row under the next key. On failure nothing changes. Tokens stay unique. |
| Models.GetSelectorById | election1/models.py:442-458 | Returns a selector with the key when one exists, and None exactly when none does. |
| Models.SelectorTable.Add | election1/misc/view.py:56-64 | Appends exactly the given selector under the next key and returns that key. |
| Models.SelectorTable.Delete | election1/misc/view.py:88-95 | Reports whether the key existed, and leaves every other selector in order. |
| Models.CandidateTables.AddCandidate | election1/candidate/view.py:211-219 | Appends exactly one candidate with the given fields under the next key. The other tables are unchanged. |
| Models.CandidateTables.AddWritein | election1/candidate/view.py:65-73 | Appends exactly one write-in with the given fields under the next key. The other tables are unchanged. |
| Models.CandidateTables.CheckAndInsertWriteinCandidate | election1/models.py:182-197 | The candidates become the table with the placeholder ensured. The counter advances by the number of rows added. Write-ins and votes are unchanged. |
| Models.CandidateTables.DeleteCandidate | election1/candidate/view.py:267-271 | Reports whether the key existed. If it did, every other candidate is kept in order, and the votes for this one lose their candidate. Otherwise nothing changes. |
| Queries.FindOffice | election1/models.py:258 | The joined office has the candidate's office key, and there is none exactly when no office has it. |
| Queries.FindClassgrp | election1/models.py:259 | The joined class has the candidate's class key, and there is none exactly when no class has it. |
| Queries.VoteCount | election1/models.py:256-257 | At most the number of votes, and zero exactly when no vote references the candidate. |
| Queries.TallyOf | election1/models.py:249-267 | The join, group and count for one candidate. There is a row exactly when its office and class join and some vote references it. The row's total is that vote count, and it carries the candidate's key and the class and office sort keys. |
| Queries.TallyBefore | election1/models.py:268 | The definition: class sort key ascending, then office sort key ascending, then vote count descending, with ties allowed. |
| Queries.CandidateTallies | election1/models.py:249-267 | Every grouped row is the tally of some candidate. Every candidate whose office and class join and who has a vote has its row. |
| Queries.TallyOrderIsTotal | election1/models.py:268 | Class sort key, then office sort key, then count descending is a total preorder. |
| Queries.SummaryTallies | election1/models.py:268 | The grouped rows, sorted by that order, and a permutation of them. |
| Queries.GetSummaryResults | election1/models.py:245-269 | The result is the sorted rows' selected columns, position by position. |
| Queries.SummaryRowsCountVotes | election1/models.py:249-268 | Every result row has a total equal to the number of votes for its candidate, which is at least one. It carries the names of an existing candidate, office and class that join. Its sort keys are that class's and that office's. |
| Queries.SummaryCoversVotedCandidates | election1/models.py:249-267 | Every candidate whose office and class exist and that has a vote has a row with its vote count. |
| Queries.ValidUniqueIds | election1/models.py:150 | In a candidate table that keeps its invariant, no two candidates share a key. This is the premise of `Queries.TalliesOncePerCandidate` and `Queries.SummaryOncePerCandidate`. |
| Queries.FindOfficeUnique | election1/models.py:258 | With unique office keys, the office joined for a key is the office holding it. |
| Queries.TalliesOncePerCandidate | election1/models.py:260-267 | With unique candidate keys, no candidate has two grouped rows. |
| Queries.SummaryOncePerCandidate | election1/models.py:260-268 | With unique candidate keys, no two result rows have the same candidate. |
| Queries.DeletedCandidateNotSummarised | election1/candidate/view.py:267-271 | After a candidate is deleted and its votes detached, no summary row names it. |
| Queries.OfficeHasCandidateIn | election1/models.py:102-103 | The definition: the join Office, Candidate, Classgrp filtered on the class name has a row for this office. |
| Queries.ClassOffices | election1/models.py:97-103 | The joined rows are the selected columns of exactly the offices that have a candidate in a class with the given name. |
| Queries.SortkeyOrderIsTotal | election1/models.py:104 | Ordering by office sort key is a total preorder. |
| Queries.QueryOfficesForClassgroup | election1/models.py:96-106 | Exactly the offices with a candidate in the named class, each once, in non-decreasing sort key order. |
| Queries.OfficesStrictlyOrdered | election1/models.py:96-106 | When office sort keys are unique, the result is strictly increasing in sort key. |
| Tokens.PresentTiers | election1/misc/view.py:134 | No kept tier is empty, and there are no more than the tiers given. |
| Tokens.PresentTiersMembers | election1/misc/view.py:134 | A text is kept exactly when it is a non-empty, non-NULL tier. |
| Tokens.ScopeString | election1/misc/view.py:134 | The definition: the present tiers joined with '$'. The same text is used for a batch at line 134 and a single token at line 210. Its properties are the lemmas below. |
| Tokens.ScopeStringRoundTrip | election1/misc/view.py:126-135 | With a non-empty primary tier and no '$' in the tiers, splitting the scope on '$' gives back exactly the present tiers. |
| Tokens.PrimaryOnlyScope | election1/misc/view.py:126-135 | When the other tiers are NULL or empty, the scope is the primary tier alone. |
| Tokens.FullScope | election1/misc/view.py:126-135 | With four non-empty tiers, the scope is them in order with '$' between. |
| Tokens.GapSkipped | election1/misc/view.py:126-135 | "Senior", NULL, "North", NULL gives "Senior$North". |
| Tokens.NormaliseTier | election1/misc/view.py:40-53 | A lower tier becomes NULL exactly when it is absent or the placeholder, and is kept otherwise. |
| Tokens.SelectorFromForm | election1/misc/view.py:29-61 | Refused for a failed CSRF check, then for a placeholder primary, then for an absent primary, each exactly in its case. Otherwise the row has the primary as sent and the lower tiers normalised. |
| Tokens.SetupTokens | election1/misc/view.py:26-72 | A refused form or a failed commit leaves the table unchanged. Otherwise exactly one selector with the normalised tiers is appended and its key is returned. |
| Tokens.DeleteTokenlistSelector | election1/misc/view.py:88-100 | An unknown key (a 404) or a failed commit changes nothing. Otherwise the selector is removed and the others stay in order. |
| Tokens.DeletedSelectorGone | election1/misc/view.py:90-94 | After the delete no selector has the key. |
| Tokens.Scopes | election1/misc/view.py:123-135 | One scope string per selector. |
| Tokens.ComposeScopes | election1/misc/view.py:123-135 | The loop's list is the selectors' scope strings in table order. |
| Tokens.BatchLength | election1/misc/view.py:158-177 | The build commits rows up to the first draw that repeats an earlier one, or all 101. No earlier row repeats, and the stopping row does. |
| Tokens.BatchRows | election1/misc/view.py:158-170 | The first m rows of a build: row i has key base+i, scope `scopes[i % k]`, the i-th draw and no submission time. |
| Tokens.BatchHasToken | election1/models.py:382 | The next draw is already in the batch exactly when it repeats an earlier draw. |
| Tokens.IssueBatchRow | election1/misc/view.py:158-177 | One pass of the loop inserts the next batch row exactly when the build has not reached its stopping row. Otherwise nothing changes. |
| Tokens.BuildTokens | election1/misc/view.py:102-181 | Starts with an empty ledger. With no selectors it fails and the ledger stays empty. Otherwise the ledger is exactly the batch rows up to the first repeated draw. The build reports success exactly when all 101 rows went in, and otherwise the row that failed. |
| Tokens.FreshDrawsFillBatch | election1/misc/view.py:158-177 | 101 pairwise different draws fill the whole batch. |
| Tokens.RoundRobin | election1/misc/view.py:158-168 | The first k rows take the k selectors' scopes in order, and rows k apart share a scope. |
| Tokens.CastLink | election1/misc/view.py:224 | The definition: `http://host:port/cast/scope/token`. Its property is the next lemma. |
| Tokens.CastLinkParts | election1/misc/view.py:224 | Without '/' in host, port, scope and token, the link splits into the scheme, the authority, "cast", the scope and the token. |
| Tokens.SingleToken | election1/misc/view.py:191-224 | An unknown selector or a duplicate token changes nothing. Otherwise exactly one unsubmitted row with the selector's scope is added, its lookup returns that record, and the link is the cast URL. |
| Registration.DatesGate | election1/candidate/view.py:30-37 | Refusal for missing dates exactly when there is no dates record. Refusal for a started vote exactly when `now` is after the first record's start. Passes otherwise. |
| Registration.LastnameAccepted | election1/candidate/view.py:191-199 | The definition: a lastname is accepted when it is non-empty, or when the office's ballot type is "Single Name". |
| Registration.LastnameOf | election1/candidate/view.py:163-167 | The definition: the lastname as sent, or `''` when the field is absent. |
| Registration.NormaliseParty | election1/candidate/view.py:201-202 | The party placeholder becomes NULL, and any other party is kept. |
| Registration.CandidateDecision | election1/candidate/view.py:132-219 | Each refusal holds exactly when every earlier check passed and its own check fails, in this order: the dates gate, CSRF, first name, the other fields, class selected, office selected, the lastname rule, and no candidate in the class with the same name. A row is added exactly when all checks pass. It has the fields as sent, with the lastname defaulted and the party normalised. |
| Registration.CandidateRegisteredOnce | election1/candidate/view.py:204-219 | Once the row is in the table, the same submission is refused as a duplicate. |
| Registration.DuplicateAcrossOffices | election1/models.py:216-222 | The same name in the same class is refused whatever the office. |
| Registration.MeasureOfficeNeedsLastname | election1/candidate/view.py:191-199 | For a "Measure" office, the first-name-only fields are offered, yet a submission without a lastname is refused. |
| Registration.RegisterCandidate | election1/candidate/view.py:143-226 | A refusal or a failed commit changes nothing. Otherwise exactly one candidate with the decided fields is appended, and the other tables are unchanged. |
| Registration.WriteinDecision | election1/candidate/view.py:30-63 | Each refusal holds exactly when every earlier check passed and its own check fails, in this order: the dates gate, form validation, class selected, office selected, and no write-in with that name, class and office. A write-in is added exactly when all checks pass, and it is the form as sent. |
| Registration.WriteinRegisteredOnce | election1/candidate/view.py:61-73 | Once the write-in is in the table, the same submission is refused. |
| Registration.RegisterWritein | election1/candidate/view.py:41-78 | A refusal or a failed commit changes nothing. Otherwise the placeholder is ensured and exactly one write-in row is appended. |
| Registration.GetNameFields | election1/candidate/view.py:235-246 | "Normal" and "Rank Choice" give first and last name, "Single Name" and "Measure" give first name only, and anything else, including no office, gives a 400. |
| Registration.NameFieldsMatchLastnameRule | election1/candidate/view.py:191-199 | Offices shown both name fields refuse an empty lastname. "Single Name" offices are shown first name only and accept one. |
| Registration.DeleteCandidateView | election1/candidate/view.py:257-278 | An unknown key (a 404) or a failed commit changes nothing. Otherwise the candidate is removed, its votes are detached and the write-ins are unchanged. |
| Registration.DeletedCandidateGone | election1/candidate/view.py:267-271 | After the delete no candidate has the key and no vote references it. |

## Left out

- Flask routing, templates, `flash`, redirects, `session_check`, `session.clear`, login checks and GET page rendering: user-interface plumbing. Outcomes are result datatypes instead.
- Workbook writes, `Path.unlink`, the QR image, its PNG and base64 HTML: file and image output. The batch build's worksheet lines are therefore not modelled.
- `get_token`: its source is not part of this model. It is the parameter `draw`, or the `token` parameter of a single issue.
- SQLAlchemy sessions, rollback internals, table creation and `inspect`: the tables are sequences in classes, and a commit is an update.
- Other storage failures of a token insert, such as column length limits: a token insert fails only on a duplicate string.
- `datetime.now`, `fromtimestamp` and `isoformat`: time is an integer. `Models.ToDict` keeps the submission time as that integer, not its ISO text.
- `election1/admins/form.py` and the form classes: field declarations validated by the library. Write-in validation is the input flag `formValid`.
- Ballot casting, token redemption and per-office `vote_for` limits: they appear in no modelled file.
- Logging and `print`.
- `candidate_report`, `candidate_search`, `genQR` and `timeout_redirect`: read-only views outside the modelled core.
- Tokens.BuildTokens: key numbering after a clear is the model's choice. `Models.TokenLedger.DeleteAll` keeps the counter, so batch rows get keys from `old(ledger.nextId)` on. Whether the database restarts keys after `Tokenlist.query.delete()` depends on the engine, and the looked-up record carries this key (`to_dict`, `election1/models.py:393`). So after a rebuild its value can differ from the database's. No check or decision depends on it.
- Queries without ORDER BY are read in table order. This covers `Tokenlistselectors.query.all()` (`election1/models.py:440`), on which the batch build's round robin depends, `Dates.query.first()` (`election1/models.py:325`, `334`) and the `filter_by(...).first()` lookups. The database does not promise that order.
- Models.GetBallotTypeName: an office key sent as text is compared as text, so the database's conversion of text keys to integers is not modelled.
