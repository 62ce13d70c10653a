# SGSB dam-safety back end: a Dafny model of its rule core

SGSB keeps a register of dams (barragens), their structures, their
monitoring instruments and the readings (leituras) taken from them. It also
keeps incidents (ocorrências) and the alerts (alertas) raised from readings
and incidents. This project models the parts of its TypeScript server and
dashboard that make decisions, and proves what those decisions guarantee:

- **Partial updates** (`server/db.ts`):
  - `buildUpdateFragments` and the hand-written `addField` copy in
    `updateBarragem` turn a partial payload into `column = @column`
    fragments and parameter setters. Both are modelled as loops proved
    against one specification function.
  - Every `update<Entity>` then sends no statement, or one UPDATE, stamped
    with `updatedAt = SYSDATETIME()` except for estruturas and hidrometria.
  - A reference semantics of the UPDATE on a stored row shows which columns
    change and that repeating the statement changes nothing more.
- **Readings, incidents and alerts** (`server/db.ts`):
  - `createLeitura` classifies a reading against the instrument's critical
    and alert levels and flags the input object in place. It then inserts the
    reading and derives at most one alert.
  - `createOcorrencia` derives an alert from the incident's severity.
  - `toggleUserStatus` and `marcarAlertaComoLido` are small state changes.
  - The tables are maps from id to record, inside a `Database` class.
- **Input validation and access** (`server/routers.ts`):
  - `normalizeEnumValue` performs NFD, drops combining marks, trims and
    lower-cases.
  - `flexEnum` builds a normalised-to-canonical table and resolves input
    through it. Fourteen declared value lists are proved to be accepted
    unchanged.
  - The `adminProcedure` gate admits two roles.
  - The upload handler splits the payload, the extension and the storage key.
- **Dashboard** (`client/src/pages/Home.tsx`): the risk statistics over the
  dam list, and the label, colour and icon of a risk category.
- **Database connection** (`server/_core/sqlserver.ts`):
  - `sanitizeHost` and the host/instance split with its precedence.
  - The ODBC connection string, and the configuration chosen by the driver.

Files:

| file | module | flavour |
|---|---|---|
| wrappers.dfy | Wrappers | `Option`, `Result` |
| js_string.dfy | JsString | the JavaScript string built-ins the core calls |
| update_builder.dfy | UpdateBuilder | update fragments: loops against specification functions |
| alerting.dfy | Alerting | classification and alert templates: pure functions |
| store.dfy | Store | the tables as a class with map fields: methods with `modifies` |
| routers.dfy | Routers | enum normalisation, `flexEnum`, gate, upload |
| dashboard.dfy | Dashboard | statistics and risk presentation: pure |
| sqlserver_config.dfy | SqlServerConfig | environment to pool configuration: pure |

Behaviour of the code that is easy to misread, and that the model follows:

- A reading alert needs a flagged reading and a non-zero inserted id. A
  caller that passes `inconsistencia = true` itself also gets an alert. With
  no label, that alert's message says "fora do padrão".
- The critical marker is found by `toLowerCase().includes("crít")` on the
  label. The label is not stripped of diacritics first.
- A level that is empty, zero or NaN is skipped, because the guard tests
  truthiness. A stated level is not enough.
- `fileData.split(',')[1]` is the text between the first and second comma,
  not all the text after the first comma.

## Model

| member | source | states |
|---|---|---|
| UpdateBuilder.BuildUpdateFragments | server/db.ts:27-55 | the loop returns exactly the fragments and setters of the specification functions, for any payload and config |
| UpdateBuilder.DefinedIndicesExact | server/db.ts:34-36 | the visited config keys are exactly the defined ones, strictly increasing, so config order is kept |
| UpdateBuilder.FragmentsFollowDefinedIndices | server/db.ts:34-47 | there is one fragment and one setter per defined key; fragment k is `column = @column` for the k-th defined key, with `column` = `fieldConfig.column ?? key`, and setter k is that key's setter |
| UpdateBuilder.OneSetterPerFragment | server/db.ts:38-39 | there are as many setters as fragments, and setter k binds the column that fragment k assigns |
| UpdateBuilder.SetterValues | server/db.ts:39-46 | setter k binds the key's column with its SQL type; an explicit null binds null, never a transformed value; a value is converted when the field has a transform and bound raw otherwise |
| UpdateBuilder.AssignmentInjective | server/db.ts:38 | different columns give different fragments |
| UpdateBuilder.IncludedIffDefined | server/db.ts:34-38 | a column's fragment is emitted iff some config entry for that column has a defined payload value |
| UpdateBuilder.EmptyIffNothingDefined | server/db.ts:34-38 | the fragment list is empty iff no configured key is defined |
| UpdateBuilder.IgnoresUnconfiguredKeys | server/db.ts:34-35 | changing a payload key that is not in the config changes neither fragments nor setters |
| UpdateBuilder.PlainConfig | server/db.ts:295-401 | the `addField` calls as a config: one plain entry per column, in order |
| UpdateBuilder.AddField | server/db.ts:284-293 | an undefined value leaves both lists unchanged; otherwise one fragment and its setter are appended |
| UpdateBuilder.AddFields | server/db.ts:295-401 | the sequence of `addField` calls yields the same fragments and setters as the generic builder on the plain config |
| UpdateBuilder.UpdateBarragemFragments | server/db.ts:280-401 | `updateBarragem`'s hand-written list agrees with the generic builder on the barragens config |
| UpdateBuilder.StatementShape | server/db.ts:403-405 | no statement iff nothing is defined; otherwise one UPDATE of that table: the fragments, then the stamp if stamped, `id` bound first, then one binding per fragment |
| UpdateBuilder.StampOnlyWhenStamped | server/db.ts:403-405 | `updatedAt = SYSDATETIME()` appears among the assignments iff the table is stamped |
| UpdateBuilder.EntityStatements | server/db.ts:488-491 | for all eight `update*` functions: no statement iff nothing is defined, and the stamp is present iff the entity is not estruturas or hidrometria |
| UpdateBuilder.ApplyBindingsTwice | server/db.ts:407-410 | applying the same bindings twice gives the same row as applying them once |
| UpdateBuilder.ColumnWrittenLater | server/db.ts:407-410 | a column that a binding writes ends up the same whatever it held before |
| UpdateBuilder.RowAfterKeepsOtherColumns | server/db.ts:403-410 | a column that no defined field names (other than `updatedAt`) is untouched by the statement |
| UpdateBuilder.RowAfterIdempotent | server/db.ts:403-410 | running the same UPDATE again at the same clock reading leaves the row as it is |
| Alerting.Threshold | server/db.ts:701-707 | a level is compared iff it is present, non-empty, parses and is non-zero, and then its parsed value is used |
| Alerting.ClassificationCases | server/db.ts:704-710 | critical iff the reading reaches the critical level; alert iff it reaches the alert level but not the critical one; none otherwise, including an unparsed reading |
| Alerting.ClassificationMonotone | server/db.ts:704-710 | a larger reading is never classified lower |
| Alerting.UnparsedReadingUnflagged | server/db.ts:699-710 | a NaN reading, or an instrument with neither level usable, leaves the reading unflagged |
| Alerting.ReadingAlert | server/db.ts:756-772 | an alert exists iff the reading is flagged, the instrument exists and the id is non-zero; it takes the instrument's dam, links the instrument and the reading, and uses the fixed type, title, severity and message templates |
| Alerting.LowerCriticalLabel | server/db.ts:757 | the lower-cased critical label contains "crít" |
| Alerting.LowerAlertLabel | server/db.ts:757 | the alert label lower-cases to "acima do nível de alerta" |
| Alerting.LabelSeverities | server/db.ts:762-765 | the critical label gives severity "critico" and the alert label gives "alerta" |
| Alerting.FlaggedReadingAlert | server/db.ts:756-772 | a reading flagged by the classification gets an alert whose severity is "critico" exactly for the critical label, with the lower-cased label in its message |
| Alerting.IncidentAlert | server/db.ts:1156-1165 | an alert exists iff the id is non-zero and the severity is "alta" or "critica"; "critica" maps to "critico" and "alta" to "alerta"; the message is the first min(200, length) characters of the report |
| Alerting.ToggledAtivo | server/db.ts:166 | the new bit is 0 or 1, and it is 1 exactly when the user was inactive |
| Store.ToggledUsers | server/db.ts:159-170 | the same users; only the given one changes, and its `ativo` is negated |
| Store.ToggleTwice | server/db.ts:159-170 | toggling the same user twice restores the table |
| Store.MarkedRead | server/db.ts:1704-1711 | the same alerts; the given one is read at `now` with its content unchanged; the others are untouched |
| Store.MarkReadAgain | server/db.ts:1704-1711 | marking an alert read again only moves its read time |
| Store.Database.CreateAlerta | server/db.ts:1631-1680 | returns the database's id and stores the alert unread under it, or stores nothing for id 0 |
| Store.Database.CreateLeitura | server/db.ts:697-776 | flags the input object in place with the classification, stores the reading under a non-zero id, and stores exactly the alert `ReadingAlert` derives, if any; other tables are unchanged |
| Store.Database.CreateOcorrencia | server/db.ts:1117-1167 | stores the incident with status defaulting to "pendente", and exactly the alert `IncidentAlert` derives, if any |
| Store.Database.ToggleUserStatus | server/db.ts:159-170 | the users table becomes `ToggledUsers`; an unknown id changes nothing |
| Store.Database.MarcarAlertaComoLido | server/db.ts:1704-1711 | the alerts table becomes `MarkedRead` |
| Store.Database.SendUpdate | server/db.ts:403-410 | returns without a statement for no fragments, otherwise sends the one statement `StatementFor` describes |
| Store.Database.UpdateEntity | server/db.ts:280-410 | each `update*` sends exactly the statement `UpdateStatement` describes, or none |
| Routers.NormalizeIgnoresCase | server/routers.ts:20-25 | lower-casing the input first does not change its normal form |
| Routers.NormalizeIgnoresMarks | server/routers.ts:20-25 | for text that is otherwise Latin-1, inserting a combining mark U+0300 to U+036F does not change the normal form |
| Routers.NormalizeFoldsPrecomposed | server/routers.ts:20-25 | a precomposed letter that decomposes into a base and a mark normalises like its base letter |
| Routers.NormalizeIgnoresSurroundingWhitespace | server/routers.ts:20-25 | surrounding whitespace does not change the normal form |
| Routers.PlainTokenNormalizesToLower | server/routers.ts:20-25 | a printable ASCII token without spaces normalises to its lower case |
| Routers.BuildCanonicalTable | server/routers.ts:31-34 | the `forEach` of `map.set` builds exactly the canonical table |
| Routers.CanonicalTableKeys | server/routers.ts:31-34 | the table's keys are exactly the normal forms of the declared values |
| Routers.CanonicalTableSound | server/routers.ts:31-34 | every stored value is declared and normalises to its key |
| Routers.CanonicalTableLastWins | server/routers.ts:32-34 | a key maps to the last declared value with that normal form |
| Routers.MakeFlexEnum | server/routers.ts:27-35 | the validator holds the declared values, the optional message and their canonical table |
| Routers.ParseYieldsDeclaredValue | server/routers.ts:39-49 | an accepted input resolves to a declared value with the same normal form |
| Routers.ParseRejectsUnknown | server/routers.ts:40-47 | an input whose normal form matches no declared value is rejected, by default with "Valor inválido. Use um dos seguintes: " and the values joined by ", " |
| Routers.ParseAcceptsDeclared | server/routers.ts:31-49 | when the values normalise injectively, each non-empty declared value is accepted and returned unchanged |
| Routers.ParseSeesOnlyNormalForm | server/routers.ts:39 | inputs with the same normal form get the same result |
| Routers.ParseIgnoresCaseMarksAndWhitespace | server/routers.ts:20-49 | letter case, combining marks and surrounding whitespace do not change the result |
| Routers.PlainTokensNormalizeInjectively | server/routers.ts:31-49 | plain tokens whose lower cases all differ normalise injectively |
| Routers.UserRolesPlainAndDistinct | server/routers.ts:53-60 | the roles are plain tokens with distinct lower cases |
| Routers.CategoriaRiscoPlainAndDistinct | server/routers.ts:62 | the risk categories are plain tokens with distinct lower cases |
| Routers.DanoPotencialPlainAndDistinct | server/routers.ts:63 | the damage classes are plain tokens with distinct lower cases |
| Routers.BarragemStatusPlainAndDistinct | server/routers.ts:64 | the dam states are plain tokens with distinct lower cases |
| Routers.InstrumentoStatusPlainAndDistinct | server/routers.ts:66 | the instrument states are plain tokens with distinct lower cases |
| Routers.LeituraOrigemPlainAndDistinct | server/routers.ts:67 | the reading origins are plain tokens with distinct lower cases |
| Routers.ChecklistCreateTypesPlainAndDistinct | server/routers.ts:69 | the creatable checklist types are plain tokens with distinct lower cases |
| Routers.ChecklistTypesPlainAndDistinct | server/routers.ts:70 | the checklist types are plain tokens with distinct lower cases |
| Routers.ChecklistStatusPlainAndDistinct | server/routers.ts:71 | the checklist states are plain tokens with distinct lower cases |
| Routers.RespostaOptionsPlainAndDistinct | server/routers.ts:73 | the answer options are plain tokens with distinct lower cases |
| Routers.OcorrenciaSeveridadePlainAndDistinct | server/routers.ts:75 | the incident severities are plain tokens with distinct lower cases |
| Routers.OcorrenciaStatusPlainAndDistinct | server/routers.ts:76 | the incident states are plain tokens with distinct lower cases |
| Routers.ManutencaoTipoPlainAndDistinct | server/routers.ts:78 | the maintenance types are plain tokens with distinct lower cases |
| Routers.ManutencaoStatusPlainAndDistinct | server/routers.ts:79 | the maintenance states are plain tokens with distinct lower cases |
| Routers.DeclaredListsArePlainAndDistinct | server/routers.ts:53-79 | every one of the fourteen declared lists is plain and distinct |
| Routers.DeclaredValuesAccepted | server/routers.ts:53-79 | a validator over any declared list accepts each of its values unchanged |
| Routers.DeclaredValuesAcceptVariants | server/routers.ts:53-79 | any input with the normal form of a declared value resolves to that value |
| Routers.AcuteIDecomposes | server/routers.ts:22 | "í" decomposes into "i" and U+0301 |
| Routers.LeadingSpaceDropped | server/routers.ts:24 | " Crítica" normalises like "Crítica" |
| Routers.AccentDropped | server/routers.ts:23 | "Crítica" normalises like "Critica" |
| Routers.CapitalDropped | server/routers.ts:25 | "Critica" normalises to "critica" |
| Routers.AlreadyNormal | server/routers.ts:20-25 | "critica" is its own normal form |
| Routers.CriticaIsDeclared | server/routers.ts:75 | "critica" is the fourth incident severity |
| Routers.CriticaExample | server/routers.ts:20-25 | " Crítica" normalises to "critica" |
| Routers.CriticaParses | server/routers.ts:39-49 | the severity validator resolves " Crítica" to "critica" |
| Routers.AdminGateAdmitsTwoRoles | server/routers.ts:10-18 | the gate lets a request through iff the role is "admin" or "gestor", otherwise it fails with FORBIDDEN and the fixed message; of the declared roles exactly those two pass |
| Routers.Base64PayloadCases | server/routers.ts:771 | with no comma the whole string is used; a non-empty segment after the comma is used; an empty one falls back to the whole string |
| Routers.Base64PayloadStopsAtSecondComma | server/routers.ts:771 | with two or more commas the payload is only the text between the first two; an empty segment there falls back to the whole string |
| Routers.ExtensionCases | server/routers.ts:776 | the extension holds no dot; a name without a dot is its own extension; otherwise it is the text after the last dot |
| Routers.StorageKeyKeepsExtension | server/routers.ts:777 | the key starts with "documentos/" and has the same extension as the file name |
| Dashboard.EstatisticasGerais | client/src/pages/Home.tsx:31-39 | the statistics are null exactly when the dam list is absent |
| Dashboard.FilterKeepsMultiplicity | client/src/pages/Home.tsx:34-37 | a filter keeps each matching element as often as it occurs and drops the rest |
| Dashboard.StatsCountMatchingDams | client/src/pages/Home.tsx:33-37 | `total` is the list length; each count keeps exactly the dams with category A/B, C, D/E, or damage "Alto", with multiplicity |
| Dashboard.RiskCountsBounded | client/src/pages/Home.tsx:31-36 | the three risk counts sum to at most the total, with equality iff every dam's category is one of A to E |
| Dashboard.CountTestsAreGroups | client/src/pages/Home.tsx:34-36 | each count's filter test accepts a dam exactly when its category falls in the matching group of the `switch` statements |
| Dashboard.StatsFollowGroups | client/src/pages/Home.tsx:34-36 | the three risk counts are the sizes of the high, medium and low groups |
| Dashboard.RiscoLabelCases | client/src/pages/Home.tsx:71-84 | A/B give "Alto", C gives "Médio", D/E give "Baixo", and any other category is returned unchanged |
| Dashboard.RiscoColorCases | client/src/pages/Home.tsx:41-54 | A/B give the red class list, C the yellow one, D/E the green one, and any other category the gray one |
| Dashboard.RiscoIconCases | client/src/pages/Home.tsx:56-69 | A/B give XCircle, C gives AlertTriangle, D/E give CheckCircle, and any other category gives AlertCircle |
| Dashboard.PresentationFollowsGroup | client/src/pages/Home.tsx:41-84 | label, colour and icon depend only on the group; colour and icon tell the four groups apart |
| Dashboard.LabelDoesNotIdentifyGroup | client/src/pages/Home.tsx:71-84 | an unknown category spelt "Alto" gets the same label as "A" |
| SqlServerConfig.SanitizeHost | server/_core/sqlserver.ts:15-18 | the result is "localhost" or the trimmed input |
| SqlServerConfig.SanitizeHostCases | server/_core/sqlserver.ts:15-18 | "localhost" replaces the trimmed input exactly when it is "(local)" in any letter case; anything else is only trimmed |
| SqlServerConfig.SanitizeHostIdempotent | server/_core/sqlserver.ts:15-18 | sanitising twice is sanitising once |
| SqlServerConfig.SanitizeHostUpperAlias | server/_core/sqlserver.ts:15-18 | " (LOCAL) " is trimmed and, matched without regard to case, becomes "localhost" |
| SqlServerConfig.SanitizeHostMixedAlias | server/_core/sqlserver.ts:15-18 | "(Local)" becomes "localhost" |
| SqlServerConfig.SanitizeHostOtherHost | server/_core/sqlserver.ts:15-18 | any other host, e.g. " db01 ", is only trimmed, to "db01" |
| SqlServerConfig.ServerParts | server/_core/sqlserver.ts:23 | the split keeps one or two pieces, none holding a backslash |
| SqlServerConfig.HostHasNoBackslash | server/_core/sqlserver.ts:23-24 | the host part never holds a backslash |
| SqlServerConfig.ServerWithInstance | server/_core/sqlserver.ts:20-25 | for `host\inst`, with or without more after a second backslash, the host is the sanitised `host` and the instance is `SQLSERVER_INSTANCE` if set, else `inst` |
| SqlServerConfig.ServerWithoutInstance | server/_core/sqlserver.ts:20-25 | without a backslash the whole server is the host and the instance is `SQLSERVER_INSTANCE` or "SQLEXPRESS"; an unset server gives "localhost" |
| SqlServerConfig.RawServerSplitsBack | server/_core/sqlserver.ts:26 | splitting `rawServer` at the backslash gives back host and instance when the instance holds none |
| SqlServerConfig.TrustedUnlessOverridden | server/_core/sqlserver.ts:28 | trusted mode is on iff the variable is unset or exactly "true" |
| SqlServerConfig.ConnectionStringEndings | server/_core/sqlserver.ts:77-86 | the string starts with the server/database/driver/encryption prefix and ends with `Trusted_Connection=Yes;` when trusted, with `Uid=…;Pwd=…;` when both are non-empty, and with nothing otherwise |
| SqlServerConfig.ConnectionStringNamesEverything | server/_core/sqlserver.ts:77-81 | the string always contains the server, database, driver and encryption settings |
| SqlServerConfig.PoolConfigOf | server/_core/sqlserver.ts:88-119 | the connection-string form iff the driver is "msnodesqlv8"; otherwise host, instance, database and driver with `encrypt` off, the server certificate trusted, and NTLM with empty-string defaults iff trusted, else the plain user and password |
| SqlServerConfig.DefaultConfiguration | server/_core/sqlserver.ts:20-92 | with nothing set, the pool uses the connection string for `localhost\SQLEXPRESS`, database "sgsb", ODBC Driver 17, in trusted mode |

## Left out

- SQL execution is not modelled: the pool, `runQuery`, the SQL text of inserts and selects, and `formatSqlError`. Tables are maps from id to record, and the id an insert returns is a parameter (0 for no row).
- The reading insert and the alert insert are two separate steps. No atomicity is claimed.
- `parseFloat` is a parameter mapping a string to a real, or to nothing for NaN. Infinity is not represented.
- `toDate` and `new Date` are the abstract `ToDate` transform. The values they produce are not modelled.
- `normalize("NFD")` is modelled for Latin-1 letters only, and `toLowerCase` for ASCII and Latin-1 only. Every other character is left unchanged, so properties about other characters are not claimed.
- NormalizeIgnoresMarks: canonical reordering of combining marks, which `normalize("NFD")` performs, is not modelled, so marks stay in input order. The lemma is therefore claimed only for text that is otherwise Latin-1, whose marks all come from U+0300 to U+036F. Outside that range, a mark such as U+034F (combining class 0) can block the reordering, and inserting it can change the JavaScript result.
- `substring(0, 200)` counts characters, not UTF-16 code units.
- `Date.now()`, `Math.random().toString(36)`, `Buffer.from` and `storagePut` are outside the model. The timestamp and random suffix are parameters of `StorageKey`.
- The columns of readings, incidents and alerts that play no part in the decisions are not modelled (`usuarioId`, `dataHora`, `observacoes`, coordinates and the like).
- `createAlerta`'s optional `lido`, `dataLeitura`, `destinatarios` and action fields are not modelled. The model stores every alert unread.
- `getSqlPool`'s module-level caching and `getDashboardData`'s concurrent queries are concurrency and I/O.
- The UI rendering, the other pages and the C# projects are not part of this model.
- SqlServerConfig.SanitizeHost: its own contract says only "localhost or the trimmed input". The exact condition is in `SanitizeHostCases`.
