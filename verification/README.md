# Dental clinic assistant: a verified model of its reasoning core

This project models in Dafny the parts of the dental clinic's system that compute
exact results from plain data. It covers:

- **Schema rule inference** (`scripts/phase1/auto_discovery.py`). It infers business rules from a
  database schema: six keyword classifiers per column, and a first-match table-purpose classifier.
  It adds referential, not-null, unique and CHECK rules, the ordered rule list of the whole schema,
  the table-description map and the system prompt. The schema is a value.
- **SQL safety gates.**
  - `validate_sql` of the SQL generator is an ordered, fail-fast pipeline with a `Result` verdict.
  - The weaker `/api/query` guard and the startup credential check of the Express server.
- **Persistence record shaping.**
  - Rule priorities, configuration rows and their keys, and the success counting of row inserts
    (`populate_config.py`).
  - The column-type classifier, the `Tabla;Columna` parser, mapping rows and the documentation
    listing (`generate_column_mappings.py`).
  - The `.env` reader and in-order merge, and the answer defaulting of the interactive setup
    (`configure.py`).
- **Serialisers and mappers.**
  - The Markdown rendering of query rows and the business-rule filter of the assistant service.
  - The appointment-state mapper and the row defaults of the database service.
- **Stateful stores.**
  - The scheduled-message queue, with retries and terminal states.
  - The WhatsApp worker's session state and chat/message store.
  - The reflection-approval reducer of the application shell.
- **Small UI helpers.**
  - The odontogram tooth-state cycle, patient search and new-patient check.
  - Relative dates, the urgent flag and the WhatsApp status indicator.
  - The calendar month grid.

Code that works by changing state becomes imperative Dafny:
- a class with `modifies` clauses: `AutoDiscovery.DiscoveryEngine`, `ColumnMappings.ColumnMappingGenerator`,
  `Messaging.MessageQueue` and `WhatsAppWorker.Manager`;
- methods with loops: the `.env` rewrite, the per-row inserts and the calendar grid.

Each method is proved against a specification function, and the properties are proved about
those functions. Pure code (classifiers, mappers, reducers) becomes functions and lemmas.

Shared modules:
- `Wrappers`: `Option`.
- `Text`: ASCII case mapping, substring search, strip, split/join, decimal digits, replace.
- `Dicts`: an insertion-ordered dictionary with the assignment semantics of Python's `dict`
  and JavaScript's `Map`.
- `Seqs`: filtering.
- `StringOrder`: the lexicographic order and sort used for Python's `sorted`.
- `Inserts`: the success counting of a sequence of row writes whose failures are a parameter.
- `RuleCodec`: a lossless text encoding of a rule, which stands for `json.dumps`.

`discover_all_rules` has no per-table error isolation: nothing in
`scripts/phase1/auto_discovery.py`, lines 189-217, catches an error, so one failing table ends
the whole run. The model has no error path there either.

## Model

| member | source | states |
|---|---|---|
| AutoDiscovery.AnalyzeColumnSemantics | scripts/phase1/auto_discovery.py:27-88 | no contract of its own: `ColumnSemanticsShape`, `HasRuleParts`, `ColumnSemanticsExact` and `ColumnSemanticsCount` state its properties |
| AutoDiscovery.ColumnSemanticsShape | scripts/phase1/auto_discovery.py:27-88 | a column yields at most six rules, each naming that column and no table yet |
| AutoDiscovery.HasRuleParts | scripts/phase1/auto_discovery.py:27-88 | a rule name is in the classifier's result iff it is in one of the six independent parts |
| AutoDiscovery.PartRuleNames | scripts/phase1/auto_discovery.py:33-86 | each part gives its own rule name exactly when one of its keywords occurs in the lower-cased name, and no other name |
| AutoDiscovery.ColumnSemanticsExact | scripts/phase1/auto_discovery.py:29-86 | each of the six rule names is present iff one of its category's keywords is a substring of the lower-cased column name |
| AutoDiscovery.ColumnSemanticsCount | scripts/phase1/auto_discovery.py:29-88 | the number of rules is the number of categories whose test holds: at most one rule per category, however many keywords hit |
| AutoDiscovery.FechaGetsTemporalRule | scripts/phase1/auto_discovery.py:42-48 | any column whose lower-cased name contains `fecha` gets a `VALIDACION_TEMPORAL` rule `formato_fecha_valido` |
| AutoDiscovery.PatternsOnlyOnEmailAndPhone | scripts/phase1/auto_discovery.py:51-86 | the email and phone rules carry their fixed regular-expression text as pattern; every other rule carries none |
| AutoDiscovery.ColumnSemanticsIgnoresCase | scripts/phase1/auto_discovery.py:29 | names equal up to letter case yield as many rules with the same rule names |
| AutoDiscovery.FirstDomain | scripts/phase1/auto_discovery.py:94-116 | the result is the description of the first domain whose keywords occur, and no earlier domain matches; None iff no domain matches |
| AutoDiscovery.DeduceTablePurpose | scripts/phase1/auto_discovery.py:90-126 | no contract of its own: `TablePurposeFirstMatch` states the first-match order, with `FirstDomain` for the domain dictionary |
| AutoDiscovery.TablePurposeFirstMatch | scripts/phase1/auto_discovery.py:90-126 | the purpose is the first matching domain; otherwise a catalogue (case-sensitive `T` prefix, no foreign keys); otherwise a junction naming the first two referenced tables when there are two or more foreign keys; otherwise the generic description |
| AutoDiscovery.TColabosIsStaff | scripts/phase1/auto_discovery.py:114-120 | `TColabos` with no foreign keys gets the staff description, not the catalogue one |
| AutoDiscovery.TColoresIsCatalog | scripts/phase1/auto_discovery.py:118-120 | `TColores` with no foreign keys matches no domain and is a catalogue |
| AutoDiscovery.JunctionNamesFirstTwoReferences | scripts/phase1/auto_discovery.py:122-124 | with no domain match and two or more foreign keys, the description names the referenced tables of the first and second key |
| AutoDiscovery.RelationshipRules | scripts/phase1/auto_discovery.py:128-143 | exactly one `INTEGRIDAD_REFERENCIAL` rule per foreign key, in key order, with table, column, referenced table and referenced column copied |
| AutoDiscovery.AnalyzeRelationships | scripts/phase1/auto_discovery.py:128-143 | the append loop builds exactly `RelationshipRules` |
| AutoDiscovery.NotNullRules | scripts/phase1/auto_discovery.py:149-158 | exactly one rule per column declared `IS_NULLABLE = 'NO'`, in column order (the `NO` columns filtered out of the column list, each mapped to its rule); so every rule comes from such a column and every such column gets its rule |
| AutoDiscovery.AnalyzeConstraints | scripts/phase1/auto_discovery.py:145-181 | the three loops give the required rules, then one per unique column, then one per CHECK; the count is the sum, and each CHECK clause is copied unchanged into `definition` |
| AutoDiscovery.StampTable | scripts/phase1/auto_discovery.py:207-209 | stamping sets each rule's table and changes nothing else, keeping order and length |
| AutoDiscovery.StampAppend | scripts/phase1/auto_discovery.py:207-209 | stamping distributes over concatenation |
| AutoDiscovery.AppendStamped | scripts/phase1/auto_discovery.py:207-209 | the inner loop appends exactly the stamped column rules |
| AutoDiscovery.AppendColumnRules | scripts/phase1/auto_discovery.py:202-209 | the column loop appends the stamped semantic rules of every column, in column order |
| AutoDiscovery.AllRulesAppend | scripts/phase1/auto_discovery.py:189-217 | rules are grouped by table in schema order: the rules of two schema parts are the concatenation of their rules |
| AutoDiscovery.AllRulesCount | scripts/phase1/auto_discovery.py:189-217 | the total number of rules is the sum over tables of column-semantic, relationship and constraint rules |
| AutoDiscovery.TableRulesStamped | scripts/phase1/auto_discovery.py:207-217 | every rule of a table's group names that table |
| AutoDiscovery.DescribeUnique | scripts/phase1/auto_discovery.py:199 | the description map keeps its keys distinct |
| AutoDiscovery.DescribeKeepsOthers | scripts/phase1/auto_discovery.py:199 | entries of names that no described table has are unchanged |
| AutoDiscovery.DescribeLastWins | scripts/phase1/auto_discovery.py:194-199 | a name's entry is the purpose of the last table of that name |
| AutoDiscovery.MainPlusCatalog | scripts/phase1/auto_discovery.py:228-229 | every table is counted as exactly one of main and catalogue |
| AutoDiscovery.ListedEntriesMembers | scripts/phase1/auto_discovery.py:245-247 | the listing keeps exactly the entries whose name does not start with `T` |
| AutoDiscovery.PromptEntries | scripts/phase1/auto_discovery.py:245-247 | at most 15 entries are listed, each a description entry whose name does not start with `T` |
| AutoDiscovery.PromptEntriesChosen | scripts/phase1/auto_discovery.py:245-247 | with distinct names, an entry is listed exactly when its name does not start with `T` and fewer than 15 names sort before it; the listing is in name order |
| AutoDiscovery.AppendListing | scripts/phase1/auto_discovery.py:245-247 | the listing loop appends one line per entry not starting with `T`, in the given order |
| AutoDiscovery.DiscoveryEngine.constructor | scripts/phase1/auto_discovery.py:19-25 | the engine holds the schema, with no rules, no descriptions and an empty prompt |
| AutoDiscovery.DiscoveryEngine.DiscoverAllRules | scripts/phase1/auto_discovery.py:183-222 | the rule list is replaced by (not appended to) the rules of the whole schema, so a rerun gives the same list; each table's purpose is recorded; the prompt is untouched |
| AutoDiscovery.DiscoveryEngine.GenerateSystemPrompt | scripts/phase1/auto_discovery.py:224-272 | the prompt is the template with the table counts, the listing and the number of discovered rules, and is stored; rules and descriptions are unchanged |
| AutoDiscovery.DiscoveryEngine.Results | scripts/phase1/auto_discovery.py:274-286 | the saved totals are the number of rules and of tables, with the rules and descriptions as they are |
| SqlValidator.FirstDangerous | ai/sql_generator.py:40-42 | the reported keyword is the first denylist entry, in list order, that occurs in the upper-cased text; None iff no entry occurs |
| SqlValidator.ValidateSql | ai/sql_generator.py:31-54 | accepted iff all four gates pass (`Safe`); on acceptance the result is exactly the input; the first failing gate gives the message: no SQL for empty text or a leading `--`, then the dangerous-operation message naming the first denylisted keyword found, then in read mode the SELECT-only message, then the multiple-statements message |
| SqlValidator.DenylistBeatsWriteMode | ai/sql_generator.py:37-42 | a denylist hit is rejected even with writes allowed, and the message names the first entry in list order that occurs |
| SqlValidator.ReadModeStricter | ai/sql_generator.py:44-47 | whatever read mode accepts, write mode accepts too |
| SqlValidator.ReadModeNeedsSelect | ai/sql_generator.py:45-47 | in read mode, text whose stripped upper-cased form does not start with `SELECT` is rejected, with the SELECT-only message once it passes the first two gates |
| SqlValidator.SemicolonGate | ai/sql_generator.py:50-51 | once the earlier gates pass, the verdict is a rejection iff the text contains `;` and its stripped form does not end with `;`, with the multiple-statements message |
| SqlValidator.AcceptedWhen | ai/sql_generator.py:34-54 | text passing the four gates is accepted unchanged |
| SqlValidator.LowercaseSelectAccepted | ai/sql_generator.py:45-47 | `select * from Patients` passes read mode: the gate compares the upper-cased text |
| SqlValidator.TrailingSemicolonAccepted | ai/sql_generator.py:50-51 | `SELECT 1; SELECT 2;` is accepted, because only the last character is compared |
| SqlValidator.InnerSemicolonRejected | ai/sql_generator.py:50-51 | `SELECT * FROM A; SELECT * FROM B` is rejected in either mode |
| ServerGuards.CredentialsConfigured | server.js:27-32 | the server starts iff user, password, server and database are all set and non-empty |
| ServerGuards.QueryGuard | server.js:60-71 | a missing or empty query gives 400; otherwise the query is forwarded unchanged iff its upper-cased, trimmed text starts with `SELECT`, else 403 |
| ServerGuards.ValidatorImpliesGuard | server.js:67-71 | every query the read-mode validator accepts passes the guard: the guard is the weaker gate |
| ServerGuards.GuardIgnoresCase | server.js:68 | queries equal up to letter case get the same verdict |
| ServerGuards.GuardIgnoresPadding | server.js:68 | surrounding whitespace does not change the verdict |
| ServerGuards.GuardForwardsInjection | server.js:67-71 | `SELECT 1; DROP TABLE x` passes the guard (no denylist, no semicolon check) although the validator rejects it |
| PopulateConfig.RulePriorityValues | scripts/phase1/populate_config.py:155-167 | the eight known rule types get 10, 20, ..., 80 in table order; any other type gets 100 |
| PopulateConfig.RulePriorityRange | scripts/phase1/populate_config.py:155-167 | a priority is one of 10, 20, ..., 80 or 100 |
| PopulateConfig.PromptRow | scripts/phase1/populate_config.py:53-61 | the prompt row is `PROMPT`/`SISTEMA_BASE` with the prompt as value, type `TEXT`, priority 1, by the discoverer |
| PopulateConfig.RuleRows | scripts/phase1/populate_config.py:76-95 | one row per rule, in rule order, the i-th built from the i-th rule and its index |
| PopulateConfig.RuleRowFacts | scripts/phase1/populate_config.py:78-95 | a rule row is `REGLA_NEGOCIO`, type `JSON`, with the priority of its rule type, and its value decodes back to the rule |
| PopulateConfig.LastSegmentOf | scripts/phase1/populate_config.py:78 | the text after the last `_` of a key is its index digits |
| PopulateConfig.KeySuffixes | scripts/phase1/populate_config.py:78 | two keys ending in `_` and an index are equal only when the indices are equal |
| PopulateConfig.RuleKeysDistinct | scripts/phase1/populate_config.py:76-78 | the keys of two different rows of one rule list differ, because each ends in its list index |
| PopulateConfig.DescriptionRow | scripts/phase1/populate_config.py:112-121 | a description row is `DESCRIPCION_TABLA`, keyed by the table name, type `TEXT`, priority 50 |
| PopulateConfig.DescriptionRows | scripts/phase1/populate_config.py:112-121 | exactly one row per description entry, in entry order |
| PopulateConfig.DescriptionKeysDistinct | scripts/phase1/populate_config.py:112-121 | description rows have pairwise distinct keys |
| PopulateConfig.MetadataFacts | scripts/phase1/populate_config.py:138-145 | exactly six `CONFIGURACION` rows; the date is the discovery timestamp; `TOTAL_TABLAS` and `TOTAL_REGLAS` read back as the discovery counts; `MODO_ESCRITURA` is `false` |
| PopulateConfig.InsertRows | scripts/phase1/populate_config.py:86-98 | a failing write is caught and later rows are still attempted; the rows written are the successful ones in order, and the counter is their number |
| PopulateConfig.InsertBusinessRules | scripts/phase1/populate_config.py:65-100 | the rule rows that succeed are written in order, and `inserted` counts exactly those |
| PopulateConfig.InsertTableDescriptions | scripts/phase1/populate_config.py:102-126 | the description rows that succeed are written in order |
| PopulateConfig.InsertMetadata | scripts/phase1/populate_config.py:128-153 | the metadata rows that succeed are written in order |
| PopulateConfig.PopulateAll | scripts/phase1/populate_config.py:169-182 | when the unguarded prompt insert raises, the run stops with nothing written; otherwise the table holds the prompt row, then the successful rule, description and metadata rows, in that order |
| Inserts.SuccessfulCount | scripts/phase1/populate_config.py:75-100 | the successful rows and the failed attempts together account for every row |
| Inserts.SuccessfulKeeps | scripts/phase1/populate_config.py:86-98 | a row whose write does not fail is written |
| Inserts.SuccessfulFrom | scripts/phase1/populate_config.py:86-98 | only rows of the input are written |
| RuleCodec.DecodeEncodeString | scripts/phase1/populate_config.py:81 | a string read back from its encoding, followed by any text, is the same string, and the rest is untouched |
| RuleCodec.DecodeEncodeFields | scripts/phase1/populate_config.py:81 | a sequence of optional fields reads back from its encoding |
| RuleCodec.RuleRoundTrip | scripts/phase1/populate_config.py:81 | decoding the encoding of a rule gives back the rule |
| RuleCodec.EncodeRuleInjective | scripts/phase1/populate_config.py:81 | different rules have different encodings |
| ColumnMappings.ParseLine | scripts/phase1/generate_column_mappings.py:28-34 | a line gives a pair iff its stripped form is non-empty and has exactly one `;`; the pair is the two sides of it |
| ColumnMappings.ParseLineOf | scripts/phase1/generate_column_mappings.py:28-34 | `Tabla;Columna` without inner `;` and padding parses back to exactly that table and column |
| ColumnMappings.ParseLinesGet | scripts/phase1/generate_column_mappings.py:27-35 | after reading, a table is present iff it was before or some line names it, and its columns are the old ones followed by those lines' columns in file order, duplicates kept |
| ColumnMappings.ParseLinesUnique | scripts/phase1/generate_column_mappings.py:35 | the table map keeps one entry per table name |
| ColumnMappings.DeduceColumnType | scripts/phase1/generate_column_mappings.py:72-141 | the flags follow the date, hour, duration and state keyword tests, each only when the earlier tests failed; `ID` iff no flag holds and the lower-cased name starts with `id`; only `DCitas.Fecha` and `DCitas.Hora` get the day and second kinds |
| ColumnMappings.ColumnKindExclusive | scripts/phase1/generate_column_mappings.py:76-141 | the classification is mutually exclusive and first-match: at most one flag holds, and the kind agrees with it |
| ColumnMappings.DCitasFechaIsDays | scripts/phase1/generate_column_mappings.py:78-84 | `DCitas.Fecha` is `FECHA_DIAS` with the day-offset formula |
| ColumnMappings.DCitasHoraIsSeconds | scripts/phase1/generate_column_mappings.py:94-100 | `DCitas.Hora` is `HORA_SEGUNDOS` with the seconds formula |
| ColumnMappings.IdFechaIsDate | scripts/phase1/generate_column_mappings.py:77-127 | `IdFecha` is a date column, not an identifier: the date test comes first |
| ColumnMappings.IdSitCIsState | scripts/phase1/generate_column_mappings.py:118-127 | `IdSitC` is a state column, not an identifier |
| ColumnMappings.MappingFor | scripts/phase1/generate_column_mappings.py:166-185 | a mapping row carries the table, the column and the column as its colloquial name |
| ColumnMappings.TableMappings | scripts/phase1/generate_column_mappings.py:166-185 | one mapping row per column of the table, in column order |
| ColumnMappings.MappingRowsSound | scripts/phase1/generate_column_mappings.py:158-166 | every row attempted is for a priority table present in the parsed file and one of its columns |
| ColumnMappings.MappingRowsComplete | scripts/phase1/generate_column_mappings.py:158-166 | every column of every present priority table is attempted; absent tables are skipped |
| ColumnMappings.KeyColumns | scripts/phase1/generate_column_mappings.py:226 | the key columns are exactly those whose lower-cased name contains `id`, `nombre`, `fecha` or `estado` |
| ColumnMappings.KeyBlockColumns | scripts/phase1/generate_column_mappings.py:226-230 | at most 10 key columns are listed, all of them key columns of the table |
| ColumnMappings.ListedTables | scripts/phase1/generate_column_mappings.py:240-241 | all tables are listed, sorted by name, as a permutation of the table map |
| ColumnMappings.InsertMappings | scripts/phase1/generate_column_mappings.py:156-191 | the rows written are the successful ones in order, and `total_inserted` counts exactly those |
| ColumnMappings.InsertTable | scripts/phase1/generate_column_mappings.py:166-188 | one table's loop attempts its rows after the earlier ones and keeps the counters exact |
| ColumnMappings.AppendSections | scripts/phase1/generate_column_mappings.py:218-231 | the section loop appends one section per priority table present, in the fixed order |
| ColumnMappings.SectionText | scripts/phase1/generate_column_mappings.py:219-231 | one section is the header, description, column count and key-column block of its table |
| ColumnMappings.AppendKeyColumnLines | scripts/phase1/generate_column_mappings.py:229-230 | the loop appends one line per listed key column |
| ColumnMappings.AppendTableLines | scripts/phase1/generate_column_mappings.py:240-241 | the loop appends one line per table in the listing order |
| ColumnMappings.ColumnMappingGenerator.constructor | scripts/phase1/generate_column_mappings.py:16-19 | the generator starts with no tables |
| ColumnMappings.ColumnMappingGenerator.ParseCsv | scripts/phase1/generate_column_mappings.py:21-38 | the table map becomes the old one with the file's lines read in order, and is returned |
| ColumnMappings.ColumnMappingGenerator.PopulateMappings | scripts/phase1/generate_column_mappings.py:143-191 | with no list given the five default priority tables are used; the result is the successful mapping rows and their count |
| ColumnMappings.ColumnMappingGenerator.GenerateDocumentation | scripts/phase1/generate_column_mappings.py:193-241 | the document is the header, the priority sections and the sorted table listing |
| EnvConfig.LineKey | scripts/phase1/configure.py:35-37 | a line assigns a key only when its stripped text is non-empty, is not a comment and holds `=`; the key is the text before the first `=` and never holds `=` |
| EnvConfig.LineKeyNone | scripts/phase1/configure.py:35-36 | a line assigns nothing exactly when its stripped text is empty, starts with `#`, or holds no `=` |
| EnvConfig.EnvLineReads | scripts/phase1/configure.py:61 | a written `key=value` line reads back as that key with the value's trailing whitespace removed |
| EnvConfig.EnvOf | scripts/phase1/configure.py:30-40 | the variables of a file have distinct keys |
| EnvConfig.EnvOfLastAssigned | scripts/phase1/configure.py:34-38 | a key's value is the one its last assigning line gives (a later line overwrites an earlier one) |
| EnvConfig.ReadSkipsLine | scripts/phase1/configure.py:36 | a blank, comment or `=`-less line adds nothing to the variables |
| EnvConfig.ReadLastLine | scripts/phase1/configure.py:36-38 | a last written line decides its key's value |
| EnvConfig.ReadCurrentEnv | scripts/phase1/configure.py:28-40 | the loop's dictionary is the variables of the file's lines |
| EnvConfig.Rewritten | scripts/phase1/configure.py:56-66 | one output line per input line, each rewritten on its own |
| EnvConfig.Appended | scripts/phase1/configure.py:69-71 | at most one appended line per variable |
| EnvConfig.RewriteLines | scripts/phase1/configure.py:53-66 | the rewrite loop yields the rewritten lines and exactly the keys it replaced |
| EnvConfig.AppendMissing | scripts/phase1/configure.py:69-71 | the append loop adds the lines of the variables not replaced, in the dictionary's order, after the existing lines |
| EnvConfig.UpdateEnv | scripts/phase1/configure.py:43-75 | no contract of its own: `UpdateEnvFile` computes it, and `UpdateEnvKeeps`, `UpdatedKeysIff`, `ReadAfterUpdate` and `UpdateTwice` state its properties |
| EnvConfig.UpdateEnvFile | scripts/phase1/configure.py:43-75 | the lines written are the rewritten lines followed by the missing variables' lines |
| EnvConfig.RewriteKeepsKey | scripts/phase1/configure.py:58-61 | a rewritten line assigns the same key, and when the key is updated its value is the new one |
| EnvConfig.UpdateEnvKeeps | scripts/phase1/configure.py:56-66 | every existing line keeps its place; comments, blank lines and untouched keys keep their text, updated keys get `key=value` |
| EnvConfig.UpdatedKeysIff | scripts/phase1/configure.py:60-62 | a key is recorded as updated exactly when it is a new variable and some existing line assigns it |
| EnvConfig.ReadAfterUpdate | scripts/phase1/configure.py:43-75 | reading the written lines back gives the new value of every updated variable and the old value of every other key |
| EnvConfig.RewriteTwice | scripts/phase1/configure.py:56-66 | rewriting a line twice is rewriting it once |
| EnvConfig.UpdateTwice | scripts/phase1/configure.py:43-75 | updating the file twice with the same variables writes the same lines as updating it once |
| EnvConfig.MissingKeysIff | scripts/phase1/configure.py:69-70 | a key is appended exactly when it is a variable not recorded as updated |
| EnvConfig.AppendedCount | scripts/phase1/configure.py:69-71 | one line is appended per missing key |
| EnvConfig.UpdateEnvLength | scripts/phase1/configure.py:53-71 | the file grows by exactly the number of variables no existing line assigns |
| EnvConfig.AppendedFrom | scripts/phase1/configure.py:69-71 | every appended line is the `key=value` line of a variable not already updated |
| EnvConfig.ReadLines | scripts/phase1/configure.py:50 | `readlines` gives non-empty lines, each ending at its first newline, every line but the last ending in one |
| EnvConfig.ConcatReadLines | scripts/phase1/configure.py:50-75 | writing the lines read gives back the text |
| EnvConfig.ReadLinesConcat | scripts/phase1/configure.py:50-75 | reading back lines that each end in one newline gives those lines |
| EnvConfig.UnterminatedUpdate | scripts/phase1/configure.py:56-71 | a last line without newline keeps its place and the new variable's line follows it |
| EnvConfig.UnterminatedLastLineMerges | scripts/phase1/configure.py:68-75 | when the file's last line lacks its newline, the appended line is glued to it: the old key then reads the glued text and the new key is not set |
| EnvConfig.Terminate | scripts/phase1/configure.py:68-71 | the corrected write keeps the number of lines |
| EnvConfig.TerminateKeeps | scripts/phase1/configure.py:28-40 | ending the last line changes no variable the file assigns |
| EnvConfig.WriteEnvFixedAgrees | scripts/phase1/configure.py:43-75 | on a file ending in a newline the corrected write is the source's write |
| EnvConfig.FixedReadBack | scripts/phase1/configure.py:43-75 | after the corrected write every updated variable reads its new value and every other key its old value, whatever the text |
| EnvConfig.FixedTwice | scripts/phase1/configure.py:43-75 | the corrected write is idempotent |
| EnvConfig.TerminatedReadBack | scripts/phase1/configure.py:28-75 | on a file ending in a newline, reading after the source's write gives the new variables and keeps the other keys |
| DbCredentials.Answer | scripts/phase1/configure.py:102-122 | a typed answer is used stripped; a blank one falls back to the current value, else to the default |
| DbCredentials.WithSettingsHolds | scripts/phase1/configure.py:130-137 | the new variables hold the five chosen settings under their keys |
| DbCredentials.WithSettingsKeeps | scripts/phase1/configure.py:130-137 | every other current key keeps its value |
| DbCredentials.BlankAnswersKeep | scripts/phase1/configure.py:102-137 | when every answer is blank, every key that was set keeps its value |
| DbCredentials.SavedSettingsReadBack | scripts/phase1/configure.py:87-139 | reading the saved file gives the five chosen settings and the old value of every other key |
| DbCredentials.ConfigureDatabase | scripts/phase1/configure.py:78-169 | nothing is saved exactly when a chosen setting is empty; otherwise the file is rewritten with the merged variables (by the corrected write of the finding below), and success means saved and connected |
| Messaging.FindTemplate | src/services/messagingService.ts:175-177 | the template found has the id asked for; none is found exactly when no template has it |
| Messaging.FindTemplateFirst | src/services/messagingService.ts:175-177 | the template found is the first one with that id |
| Messaging.TemplatesOfType | src/services/messagingService.ts:189-191 | a template is listed exactly when it is in the catalogue and has that type |
| Messaging.TemplatesOfTypeAppend | src/services/messagingService.ts:189-191 | the filter keeps catalogue order: filtering a concatenation concatenates the filtered parts |
| Messaging.ReminderTemplates | src/services/messagingService.ts:49-153 | the catalogue holds the `reminder-1h` and `reminder-24h` templates the reminder scheduler asks for |
| Messaging.ReplaceVars | src/services/messagingService.ts:164-170 | no contract of its own: `ReplaceVarsFills`, `ReplaceVarsSkips`, `ReplaceVarsKeeps` and `ReplaceVarsAbsent` state its properties |
| Messaging.ReplaceVariables | src/services/messagingService.ts:164-170 | the loop, one `replace` per variable in entry order, computes `ReplaceVars` |
| Messaging.ReplaceVarsFills | src/services/messagingService.ts:164-170 | filling runs left to right: after bracket-free text, a `[KEY]` of a supplied key becomes the value of the first entry with that key, and the text after it is filled in the same way |
| Messaging.ReplaceVarsFillsOne | src/services/messagingService.ts:164-170 | in bracket-free text, one `[KEY]` of a supplied key becomes exactly its value and nothing else changes |
| Messaging.ReplaceVarsSkips | src/services/messagingService.ts:164-170 | after bracket-free text, the `[X]` of a name that is no supplied key stays, and the text after it is filled in |
| Messaging.ReplaceVarsKeeps | src/services/messagingService.ts:164-170 | in any text, a `[X]` whose name is no supplied key is still there after filling |
| Messaging.ReplaceVarsAbsent | src/services/messagingService.ts:164-170 | text holding none of the variables' placeholders is returned unchanged |
| Messaging.Attempt | src/services/messagingService.ts:386-431 | one more attempt at the given time; `sent` exactly on a delivery; otherwise `failed` exactly once three attempts are reached, else still pending; the message itself is unchanged |
| Messaging.ProcessedQueue | src/services/messagingService.ts:376-436 | every message keeps its place; exactly the pending, due ones are attempted once |
| Messaging.ProcessKeepsCounts | src/services/messagingService.ts:386-431 | attempts stay within three, pending and cancelled messages have fewer, failed ones exactly three |
| Messaging.ProcessKeepsFinished | src/services/messagingService.ts:378-380 | a sent, failed or cancelled message is never touched again |
| Messaging.FindMessage | src/services/messagingService.ts:322 | the index found is the first with that id; none is found only when no message has it |
| Messaging.Cancel | src/services/messagingService.ts:321-330 | no contract of its own: `CancelEffect`, `CancelTwice` and `CancelKeepsCounts` state its properties |
| Messaging.CancelEffect | src/services/messagingService.ts:321-330 | cancelling succeeds exactly when the first message with the id is pending; only that message changes, to cancelled; a failure changes nothing |
| Messaging.CancelTwice | src/services/messagingService.ts:321-330 | a second cancel of the same id fails |
| Messaging.CancelKeepsCounts | src/services/messagingService.ts:321-330 | cancelling keeps the attempt counts well formed |
| Messaging.NewMessage | src/services/messagingService.ts:255-266 | a new message is pending with no attempts |
| Messaging.MessageQueue.constructor | src/services/messagingService.ts:156 | the queue starts empty over the template catalogue |
| Messaging.MessageQueue.TemplatesByType | src/services/messagingService.ts:189-191 | a template is listed exactly when it is in the catalogue and has that type |
| Messaging.MessageQueue.ScheduleMessage | src/services/messagingService.ts:247-275 | exactly one pending message with no attempts is appended at the end of the queue |
| Messaging.MessageQueue.ScheduleTemplateMessage | src/services/messagingService.ts:280-316 | an unknown template changes nothing; otherwise one pending message with the filled template's content, channel and type is appended |
| Messaging.MessageQueue.CancelMessage | src/services/messagingService.ts:321-330 | the queue and the answer are those of the cancel specification |
| Messaging.MessageQueue.PendingMessages | src/services/messagingService.ts:335-337 | a message is listed exactly when it is queued and pending |
| Messaging.MessageQueue.ProcessQueue | src/services/messagingService.ts:376-436 | the loop leaves the queue as the processing specification says |
| Messaging.MessageQueue.ScheduleAppointmentReminder | src/services/messagingService.ts:491-525 | nothing when the reminder time is past; otherwise the one-hour (up to two hours before) or day-before template, filled with the name, date, time, doctor and treatment, is scheduled for that time |
| WhatsAppWorker.Either | whatsapp-worker/whatsappManager.js:176 | `a \|\| b` for texts: a present non-empty text wins |
| WhatsAppWorker.PutGet | whatsapp-worker/whatsappManager.js:167-180 | storing a message for a chat appends it to that chat's messages and sets its entry; other chats are untouched |
| WhatsAppWorker.PutOk | whatsapp-worker/whatsappManager.js:167-180 | storing keeps every chat entry paired with its messages |
| WhatsAppWorker.BodyText | whatsapp-worker/whatsappManager.js:152-156 | the text is the plain conversation when there is one, else the extended text, else `[Media]`; never empty |
| WhatsAppWorker.Received | whatsapp-worker/whatsappManager.js:157-165 | the stored message keeps the sender's chat id and message id, is not from me and has a text |
| WhatsAppWorker.Receive | whatsapp-worker/whatsappManager.js:149-183 | no contract of its own: `ReceiveEffect`, `ReceiveHere`, `ReceiveElsewhere` and `ReceiveOk` state its properties |
| WhatsAppWorker.ReceiveEffect | whatsapp-worker/whatsappManager.js:146-188 | an own or bodiless message changes nothing; otherwise it is appended to its chat, whose unread count goes up by one and whose last message is its text; other chats are untouched |
| WhatsAppWorker.ReceiveHere | whatsapp-worker/whatsappManager.js:167-180 | a stored message is appended to its own chat's messages, that chat's unread count goes up by one and its last message becomes the text |
| WhatsAppWorker.ReceiveElsewhere | whatsapp-worker/whatsappManager.js:167-180 | a stored message leaves the messages and chat entry of every other chat as they were |
| WhatsAppWorker.ReceiveOk | whatsapp-worker/whatsappManager.js:146-188 | receiving keeps every chat entry paired with its messages |
| WhatsAppWorker.Upsert | whatsapp-worker/whatsappManager.js:146-188 | no contract of its own: `UpsertUnread` and `UpsertOk` state its properties |
| WhatsAppWorker.UpsertUnread | whatsapp-worker/whatsappManager.js:146-188 | a batch that is not a notification changes nothing; otherwise each chat gains one message and one unread per stored message for it |
| WhatsAppWorker.UpsertOk | whatsapp-worker/whatsappManager.js:146-188 | a batch keeps every chat entry paired with its messages |
| WhatsAppWorker.JidOf | whatsapp-worker/whatsappManager.js:223-226 | a recipient with `@` is used as is, any other becomes its digits and `@s.whatsapp.net` |
| WhatsAppWorker.SentEffect | whatsapp-worker/whatsappManager.js:229-253 | a sent message is appended to its chat, whose last message and time become its own and whose unread count is kept; other chats are untouched |
| WhatsAppWorker.SentOk | whatsapp-worker/whatsappManager.js:229-253 | sending keeps every chat entry paired with its messages |
| WhatsAppWorker.Slice | whatsapp-worker/whatsappManager.js:267-270 | `slice(-limit)`: the last `limit` messages for a positive limit, all of them for zero, all but the first `-limit` for a negative one |
| WhatsAppWorker.AfterUpdate | whatsapp-worker/whatsappManager.js:86-140 | a QR code makes the state `qr_ready`; an open link makes it connected and clears the QR; a close with code 401 logs out and clears the session; any other close reconnects |
| WhatsAppWorker.AfterUpdateOk | whatsapp-worker/whatsappManager.js:86-140 | a connected session holds no QR code; a logged-out one has neither user nor QR code |
| WhatsAppWorker.Manager.constructor | whatsapp-worker/whatsappManager.js:21-29 | no socket, disconnected, no QR, no user, no chats and no messages |
| WhatsAppWorker.Manager.GetStatus | whatsapp-worker/whatsappManager.js:31-39 | reports the state, user and QR; `hasQR` exactly when a QR is held; the number of chats |
| WhatsAppWorker.Manager.Connect | whatsapp-worker/whatsappManager.js:41-80 | a created socket makes the state connecting; a failure to create one makes it `error` |
| WhatsAppWorker.Manager.OnConnectionUpdate | whatsapp-worker/whatsappManager.js:86-140 | the session becomes what the update specification says; the store is untouched |
| WhatsAppWorker.Manager.OnMessagesUpsert | whatsapp-worker/whatsappManager.js:146-188 | the store becomes the batch's specified result; the session is untouched |
| WhatsAppWorker.Manager.ReceiveOne | whatsapp-worker/whatsappManager.js:149-186 | one message changes the store as the receive specification says |
| WhatsAppWorker.Manager.SendMessage | whatsapp-worker/whatsappManager.js:217-259 | a send succeeds exactly when there is a socket, the state is connected and the send returns an id; then the message is stored as mine; otherwise nothing changes |
| WhatsAppWorker.Manager.GetMessages | whatsapp-worker/whatsappManager.js:267-270 | an unknown chat has no messages; otherwise the slice of its messages |
| WhatsAppWorker.Manager.Logout | whatsapp-worker/whatsappManager.js:272-290 | with a socket: logged out, no socket, no session, chats and messages cleared; without one nothing changes |
| IaDental.CellText | src/services/iaDentalService.ts:152-156 | a missing or null value shows `-`; any other value shows its first 50 characters |
| IaDental.Dashes | src/services/iaDentalService.ts:149 | one `---` per header |
| IaDental.RowCells | src/services/iaDentalService.ts:152-157 | one cell per header of the first row, in header order, each the cell text of that column |
| IaDental.BodyLines | src/services/iaDentalService.ts:151-158 | one table line per shown row, in order |
| IaDental.TableLines | src/services/iaDentalService.ts:147-162 | header, separator, at most 20 row lines, and two footer lines when there are more than 20 rows |
| IaDental.MarkdownTable | src/services/iaDentalService.ts:142-163 | no contract of its own: `NoResultsIff`, `MarkdownIsLines`, `TableLines` and `MarkdownLines` state its properties |
| IaDental.MarkdownIsLines | src/services/iaDentalService.ts:142-163 | without an error in the first row, the table is its lines joined by newlines |
| IaDental.NoResultsIff | src/services/iaDentalService.ts:143 | the no-results message is given exactly for no rows |
| IaDental.MarkdownLines | src/services/iaDentalService.ts:147-162 | when no value holds a newline, splitting the table at newlines gives back exactly its lines |
| IaDental.RuleLine | src/services/iaDentalService.ts:178 | a rule line is never empty |
| IaDental.RuleLines | src/services/iaDentalService.ts:176-178 | one `- key: description` line per active rule, in order |
| IaDental.BusinessRules | src/services/iaDentalService.ts:176-179 | no contract of its own: `BusinessRulesEmpty`, `BusinessRulesLines` and `RulesSectionCases` state its properties |
| IaDental.BusinessRulesEmpty | src/services/iaDentalService.ts:176-179 | the rule list is empty exactly when no entry is an active business rule |
| IaDental.BusinessRulesLines | src/services/iaDentalService.ts:176-179 | splitting the rule list at newlines gives one line per active rule |
| IaDental.RulesSectionCases | src/services/iaDentalService.ts:187 | the prompt says `Ninguna configurada` exactly when no entry is an active business rule |
| DatabaseRows.MapStatus | src/services/databaseService.ts:192-198 | no contract of its own: `MapStatusCases` and `MapStatusEmpty` state its properties |
| DatabaseRows.MapStatusCases | src/services/databaseService.ts:192-198 | the first word group found in the lower-cased state decides; a state with none of the seven words is pending |
| DatabaseRows.MapStatusEmpty | src/services/databaseService.ts:193 | a missing or empty state is pending |
| DatabaseRows.OrElse | src/services/databaseService.ts:47-55 | a present non-empty text is kept, a missing or empty one takes the default |
| DatabaseRows.DatePart | src/services/databaseService.ts:47 | the date part is present exactly when the timestamp is, holds no `T` and is a prefix of it |
| DatabaseRows.Minutes | src/services/databaseService.ts:49 | a missing or zero length is 30 minutes, any other length is kept; so a length is never zero |
| DatabaseRows.MapAppointment | src/services/databaseService.ts:45-58 | each field is the row's text when present and non-empty, else its fallback: the requested day, `00:00`, `Sin nombre`, an empty phone, `General`, `Consulta`, empty notes; the length is the row's or 30, shown as `N min`; the state is the mapped state; no appointment is urgent |
| DatabaseRows.AppointmentDefaults | src/services/databaseService.ts:47-56 | time, length, patient, doctor and treatment are never empty; a row with only its id shows on the requested day at `00:00`, `30 min`, `Sin nombre`, `General`, `Consulta`, pending |
| DatabaseRows.MapAppointments | src/services/databaseService.ts:45-58 | one appointment per row, in order |
| DatabaseRows.MapPatient | src/services/databaseService.ts:71-86 | the id is kept; a missing name is built from first and last name; a missing record number is `P-` and the id; history and alerts start empty |
| DatabaseRows.MapPatients | src/services/databaseService.ts:71-86 | one patient per row, in order |
| DatabaseRows.RecordNumberPresent | src/services/databaseService.ts:77 | a record number is never empty |
| Patients.CycleIndex | src/components/Patients.tsx:136-138 | every tooth state has its place in the seven-state cycle |
| Patients.NextIsCycleStep | src/components/Patients.tsx:136-139 | the next state is the following one in the cycle, wrapping after `extracted` |
| Patients.Click | src/components/Patients.tsx:135-142 | a click selects the tooth and advances its state (an unset tooth counts as healthy); no other tooth changes |
| Patients.ClicksSteps | src/components/Patients.tsx:135-142 | n clicks on a tooth advance it n steps and leave the other teeth alone |
| Patients.StepsIndex | src/components/Patients.tsx:138-139 | n steps move n places round the cycle |
| Patients.StepsReturn | src/components/Patients.tsx:136-139 | a state comes back exactly after a multiple of seven steps |
| Patients.SevenClicks | src/components/Patients.tsx:135-142 | seven clicks restore every tooth; one to six clicks change the clicked tooth |
| Patients.FilteredPatients | src/components/Patients.tsx:118-127 | a patient is shown exactly when the lower-cased term occurs in its name, record number, DNI, phone or email |
| Patients.EmptyTermKeepsAll | src/components/Patients.tsx:118-127 | an empty search shows every patient, in order |
| Patients.LastSix | src/components/Patients.tsx:732 | the last six characters, or the whole text when shorter |
| Patients.NewPatient | src/components/Patients.tsx:722-735 | the id is the first clock reading's digits, the record number `RG` and the last six digits of the second reading, the status `active` and the last visit today; the unset optional medical history and alerts are empty sequences |
| Patients.RecordNumberOfId | src/components/Patients.tsx:723-732 | the record number repeats the id's last six digits when both readings fall in the same millisecond, and differs from them when the readings differ by less than a million milliseconds, both for readings of six or more digits (every real clock value, where the last six digits are the reading modulo a million) and for readings below a million |
| Patients.CreatePatient | src/components/Patients.tsx:717-738 | nothing is created exactly when first name, last name or phone is empty; otherwise the new patient is put in front of the list |
| Communication.RelativeDay | src/components/Communication.tsx:188-203 | today, yesterday, days, weeks and months in the past; tomorrow and days in the future |
| Communication.FormatRelativeDate | src/components/Communication.tsx:188-190 | no date gives no label |
| Communication.TodayOnly | src/components/Communication.tsx:188-203 | `Hoy` labels exactly today; past and future labels never mix |
| Communication.Flip | src/components/Communication.tsx:174 | a missing flag counts as false and is flipped to true |
| Communication.ToggleUrgent | src/components/Communication.tsx:170-180 | the contacts with the selected id have their flag flipped; the others stay as they are |
| Communication.ToggleTwice | src/components/Communication.tsx:170-180 | toggling twice restores every contact's urgency, and the list itself when the selected flags were set |
| Communication.FindContact | src/components/Communication.tsx:176-178 | the contact found is the first contact with the selected id; none is found only when no contact has it |
| Communication.StatusColor | src/components/Communication.tsx:206-217 | without the worker the indicator is grey |
| Communication.StatusText | src/components/Communication.tsx:219-231 | without the worker the text is `Worker offline` |
| Communication.StatusAgrees | src/components/Communication.tsx:206-231 | grey goes with offline or disconnected, red with a closed session or an error, lime with `Conectado` |
| CalendarView.Grid | src/components/features/Agenda/CalendarView.tsx:27-37 | the grid has blanks for the days before the first weekday and then the days 1 to the month's length, in order |
| CalendarView.GetDaysInMonth | src/components/features/Agenda/CalendarView.tsx:19-40 | the two loops build exactly that grid |
| CalendarView.IsToday | src/components/features/Agenda/CalendarView.tsx:42-50 | no contract of its own: `MarkedCell` states when a cell is marked |
| CalendarView.IsSelected | src/components/features/Agenda/CalendarView.tsx:52-59 | no contract of its own: `MarkedCell` and `SelectedOnce` state when a cell is selected |
| CalendarView.MarkedCell | src/components/features/Agenda/CalendarView.tsx:42-59 | a cell is marked exactly when it shows the marked date's day in the shown month and year; blanks never are |
| CalendarView.SelectedOnce | src/components/features/Agenda/CalendarView.tsx:52-59 | a selected date in the shown month marks exactly one cell |
| Reflection.AddConfig | src/App.tsx:57-71 | an approved payload adds an editable entry at the end unless its key is present |
| Reflection.AddConfigUnique | src/App.tsx:57-71 | configuration keys stay distinct |
| Reflection.DecideLog | src/App.tsx:74 | the matching log takes the decision as its state; other logs stay as they are |
| Reflection.Decide | src/App.tsx:53-78 | every log is decided in place, in order |
| Reflection.NoAddsKeepConfig | src/App.tsx:54-71 | without an approved pending log with a payload the configuration stays as it is |
| Reflection.RejectKeepsConfig | src/App.tsx:53-78 | a rejection never changes the configuration |
| Reflection.ApplyAdds | src/App.tsx:57-71 | no contract of its own: `ApplyAddsExtends`, `ApplyAddsUnique` and `ApproveAdds` state its properties |
| Reflection.ApplyAddsExtends | src/App.tsx:57-71 | the configuration only grows, old entries first and in order |
| Reflection.ApplyAddsUnique | src/App.tsx:57-71 | distinct configuration keys stay distinct after a decision |
| Reflection.ApproveAdds | src/App.tsx:53-78 | approving the pending log of a unique id adds exactly its payload |
| Reflection.DecideTwice | src/App.tsx:53-78 | deciding the same way twice is deciding once |
| Reflection.NewId | src/App.tsx:34 | a log id starts with `REF-` |
| Reflection.NewLog | src/App.tsx:33-47 | the new log is pending and proposes the anomaly's key and value as a business rule |
| Reflection.Simulate | src/App.tsx:28-50 | an anomaly already described changes nothing; otherwise its log goes in front and the configuration is kept |
| Reflection.SimulateTwice | src/App.tsx:28-50 | the same anomaly is never filed twice |
| Reflection.SimulateThenApprove | src/App.tsx:28-78 | approving a freshly filed anomaly with a new id adds its proposed entry |

## Left out

- Database, network and file I/O. The schema, the column listing, the `.env` text, query rows and HTTP rows arrive as values. Row writes are modelled as attempts whose failures are given as a set of attempt indices. `schema_extractor.py`, the database connection, `save_discoveries` and the engine constructor's file read are not part of this model.
- `json.dumps` of a rule: `RuleCodec` stands for it with a length-prefixed encoding. It is a different text, but it is a lossless one, and that is what the source relies on.
- The language model. The Gemini calls and `generate_sql` are not part of this model; a generated query is any text handed to `validate_sql`.
- Clock, randomness and external answers are parameters: `Date.now`, the random message and log ids, the picked anomaly, the day difference of `formatRelativeDate`, the month's first weekday and length, the `connects` result of the connection test, the socket's outcome for each send and the prompts' typed answers.
- Browser storage, listeners, timers and socket emits (`persistQueue`, `notifyListeners`, `startProcessor`, `io.emit`, `localStorage`) are left out; they only copy state elsewhere.
- `Messaging.MessageQueue.constructor`: the built-in template catalogue is passed in rather than built inside the class. `Messaging.ReminderTemplates` proves that the catalogue as written holds both reminder templates.
- `Messaging.ReplaceVariables`: a key is matched literally, while the source builds a regular expression from it, so metacharacters in keys and `$` patterns in values are not modelled. The source's keys are plain capital words.
- `sendMessage` and `sendTemplateMessage` of the messaging service only forward to the WhatsApp service. Their result appears only as the per-message outcome that `processQueue` receives.
- Case mapping and whitespace are ASCII: space, tab, newline, carriage return, vertical tab and form feed, for Python and JavaScript alike. Python's `str.strip` also removes the separators `\x1c` to `\x1f` and non-ASCII spaces. JavaScript's `trim` also removes non-breaking and other Unicode spaces. Both languages' case mappings also treat non-ASCII letters.
- A missing `.env` file reads as empty text.
- The WhatsApp worker's `chats.upsert` and `contacts.update` handlers and the timestamp sort of `getChats` are left out. They only load display names and recency order.
- `WhatsAppWorker.Manager.Logout`: a failure of the remote logout call is not modelled. The model assumes it returns normally. Removing the authentication folder is left out.
- `WhatsAppWorker.Manager.Connect`: Baileys' socket creation, the saved credentials and the QR image rendering are left out. Whether a socket was created, and the rendered QR image, are inputs.
- `WhatsAppWorker.Manager.SendMessage`: a thrown "not connected" error is modelled as a `false` result. A send is one atomic step. The source awaits the socket's send after its connected check and before it stores anything; a `logout` that finishes during that wait clears the store, and the send then stores its message and chat into the store of a logged-out manager. That interleaving is not modelled.
- `Messaging.MessageQueue.ScheduleAppointmentReminder`: the reminder instant is the appointment instant minus `hoursBefore` whole hours of 3,600,000 ms. The source subtracts local wall-clock hours with `setHours(getHours() - hoursBefore)`, so across a summer-time change its gap is 23 or 25 hours, and its past-time test reads that instant. The model's instant differs from the source's by an hour for such appointments (for example, a 24-hour reminder for 20:00 on the day clocks go forward is due at 20:00 local time the day before in the source, and at 19:00 in the model). Time zones and summer time are not modelled.
- An invalid date string in the relative-date label is not modelled; the day difference is an integer.
- `Communication.StatusColor` and `Communication.StatusText`: a still-unknown worker availability (`null`) counts as unavailable, as `!workerAvailable` reads it.
- `DatabaseRows.MapPatient`: a missing first or last name shows as `undefined`. The model does not tell a `null` field, which would show as `null`, from an absent one.
- `Reflection.NewId`: the random number is any natural number, not only one below 10000.
- `Patients.NewPatient`: the two clock readings (for the id and for the record number) are parameters; nothing relates them beyond `Patients.RecordNumberOfId`. The form leaves the optional `medicalHistory` and `alerts` fields unset; the model has no unset state for them and gives them empty sequences, which nothing on the patients screen reads.
- `EnvConfig.ReadLines`: lines end at `\n` only. Python's text mode also ends a line at `\r\n` or a lone `\r` and turns either into `\n`; that translation, on reading and on writing, is not modelled.
- `Messaging.MessageQueue.ProcessQueue`: a pass is modelled as one atomic step. The source awaits the worker's status and each send before it writes the message's state, and `setInterval` starts a new pass every 30 seconds whether or not the last one has finished. Neither interleaving is modelled.
- `Messaging.ProcessKeepsFinished`: holds for passes that run atomically. In the source, a message cancelled while a pass awaits its send is then overwritten with sent or failed.
- `Messaging.ProcessKeepsCounts`: holds for passes that run atomically. Two overlapping passes can both attempt the same pending message, and `attempts` can then go past three.
- `WhatsAppWorker.Manager.OnConnectionUpdate`: each update is handled as one atomic step. The source awaits the QR image rendering before it stores `qrCode`, and other updates may be handled during that wait.
- `WhatsAppWorker.AfterUpdateOk`: holds for updates handled one at a time. In the source, an `open` update handled while a QR image is being rendered leaves the session connected, with a QR code stored once rendering ends.
- `DbCredentials.ConfigureDatabase`: saves with the corrected write (`EnvConfig.WriteEnvFixed`), not with `update_env_file` as `configure.py` calls it. The two differ only when the file's last line lacks a newline and is not rewritten, for example a final comment, while a database key is missing. The as-written write is `EnvConfig.UpdateEnvFile`, and `EnvConfig.UnterminatedLastLineMerges` shows the difference.
- `IaDental.ErrorOf`: an `error` field counts when its text is non-empty. Cells are text, so JavaScript truthiness of a non-string value (`0` or `false` give a table, not an error) is not modelled. A `Date` cell's `toLocaleString` is given as its text.
- `IaDental.CellText`: `substring(0, 50)` counts UTF-16 code units; the model counts characters, which differ only for characters outside the Basic Multilingual Plane.
- `ServerGuards.QueryGuard`: the request's `query` is optional text. A truthy non-string body makes `toUpperCase` throw, which Express turns into a server error; that is not modelled.
- Default arguments and extra fields: `scheduleMessage`'s `type = 'reminder'`, `scheduleAppointmentReminder`'s `hoursBefore = 24` and `getMessages`'s `limit = 50` are not modelled as defaults; callers pass every argument. The `metadata` each scheduled message carries is left out, because nothing in the modelled code reads it.
- Floating-point arithmetic (age, totals, drag-and-drop offsets) and all rendering (JSX, styles, React StrictMode double calls) are left out.

## Findings

| source | as written | input that shows it | evidently intended | confidence | as-written member | corrected member |
|---|---|---|---|---|---|---|
| scripts/phase1/configure.py:68-75 | new variables are appended straight after the last existing line, which `readlines` gives without its newline when the file does not end in one | a file `A=1` (no final newline) updated with `B=2` is written as `A=1B=2\n`: `A` then reads `1B=2` and `B` is unset | end the last line before appending, so every new variable is on its own line and reads back | not executed | EnvConfig.UnterminatedLastLineMerges | EnvConfig.WriteEnvFixed |

`DbCredentials.ConfigureDatabase` saves with the corrected write. On a file that already ends in a newline, the two writes give the same text (`EnvConfig.WriteEnvFixedAgrees`).
