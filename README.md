# databasewrapper-sql2o, modelled in Dafny

This project models the core of databasewrapper-sql2o, a fluent ORM layer over sql2o. The model covers:

- **The `Query` builder** (`QueryBuilder.Query`). A class whose fields are the builder's state: the condition and ORDER BY buffers, the positional bind list, the insertion-ordered update map, the exclusions, the select columns and the SQL-limit flag. The condition builders append text and values to that state, and `clean()` resets it. Each terminal operation (`all`, `one`, `byId`, `count`, `limit`, `page`, `save`, `update`, `delete`, `execute`, and so on) returns the statement it hands to the driver, that is the SQL text and the bound values, together with the state it leaves behind. The pure transitions that specify these terminal methods live in `QueryOps`. The properties proved about them live in `QueryProperties`: every `?` gets exactly one value, the binding order of updates, the page and count statements, and a wrong binding in `updateById(model, id)`.
- **The `?` to `:pN` rewrite** of `execute(sql, params)` (`NamedParams`). It is a `while` loop proved against a recursive specification.
- **The SQL renderers** of `Dialect` and `MySQLDialect` (`Dialect`, `MySQLDialect`). They cover SELECT, COUNT, INSERT, INSERT … ON DUPLICATE KEY UPDATE, UPDATE, DELETE and LIMIT pagination. The renderers that loop over fields are methods proved against functions. The lemmas say which columns appear, how many `?` there are, and when there is a WHERE clause. The page offset wraps around like 32-bit Java arithmetic.
- **Naming and metadata** (`DatabaseUtils`, `DatabaseCache`, `ModelValues`):
  - conversion between snake_case and camelCase;
  - getter and setter names;
  - the table, column and primary-key name rules;
  - the persistable-field filter;
  - column values with and without nulls;
  - the column list;
  - removing the primary key from a model;
  - the static memo caches. Each stores the value derived on its first lookup. The column-name and duplicate-flag caches are filed under the declaring class's simple name and the field name, so two fields can share an entry (see "## Findings").
- **The small objects**: `ResultKey` (`ResultKeys`), `Atomic` (`Atomics`) and `QueryMeta` (`QueryMetas`).
- **`DatabaseWrapper` and the transaction slot** (`DatabaseWrappers`, `Transactions`): the configuration and its defaults, the fluent setters, the `of()`/`open()` registry, the `addConverter` guard, and the `atomic` protocol over `Query`'s transaction slot.

Java values are modelled explicitly:
- `null` is `None`.
- An exception is a `Result` error carrying a `JavaError`.
- `int` is a 32-bit subset type, and narrowing casts are written out.
- A model object is a map from field names to values.
- Reflection is replaced by field descriptors: the declaring class, the name, an optional `@Column` and `@Ignore`.

Calls into the sql2o driver become the `Statement` they would run. Where the driver's answer matters, it is a parameter: the total a page count returns, whether opening a transaction succeeds (one answer for each atomic), and the connection's rollback-on-close flag. `English.plural` is a function parameter.

## Model

| member | source | states |
|---|---|---|
| DatabaseUtils.IsNotEmptyNegatesIsEmpty | src/main/java/in/asvignesh/databasewrapper/utils/DatabaseUtils.java:43-53 | isEmpty holds exactly for null or "", and isNotEmpty is its negation |
| DatabaseUtils.ToUnderline | src/main/java/in/asvignesh/databasewrapper/utils/DatabaseUtils.java:66-81 | the builder loop yields the snake_case rendering; a null value gives "" |
| DatabaseUtils.UnderlineIsLowerCase | src/main/java/in/asvignesh/databasewrapper/utils/DatabaseUtils.java:66-81 | toUnderline leaves no upper-case letter and never shortens its input |
| DatabaseUtils.SplitAll | src/main/java/in/asvignesh/databasewrapper/utils/DatabaseUtils.java:56 | splitting on '_' gives one more piece than there are separators |
| DatabaseUtils.ToCamelName | src/main/java/in/asvignesh/databasewrapper/utils/DatabaseUtils.java:55-64 | the loop over the split pieces yields the camel name, or the substring exception that an empty inner piece causes |
| DatabaseUtils.CamelPrefixErrSticky | src/main/java/in/asvignesh/databasewrapper/utils/DatabaseUtils.java:58-62 | once a piece makes the loop throw, later pieces do not change the outcome |
| DatabaseUtils.CamelUnderlineRoundTrip | src/main/java/in/asvignesh/databasewrapper/utils/DatabaseUtils.java:55-81 | toCamelName(toUnderline(s)) == s for every name without '_' whose first character is not upper case |
| DatabaseCache.PersistableFieldsMembers | src/main/java/in/asvignesh/databasewrapper/core/DatabaseCache.java:50-55 | a field is persistable exactly when it is declared and not ignored |
| DatabaseCache.PersistableFieldsAppend | src/main/java/in/asvignesh/databasewrapper/core/DatabaseCache.java:50-55 | the ignore filter keeps declaration order |
| DatabaseCache.ColumnNameOfUnannotated | src/main/java/in/asvignesh/databasewrapper/core/DatabaseCache.java:63-74 | an unannotated column name is lower snake case and camel-cases back to the field name |
| DatabaseCache.AccessorNamesShape | src/main/java/in/asvignesh/databasewrapper/core/DatabaseCache.java:88-96 | getter and setter are "get"/"set" plus the field name with its first letter upper-cased, and share that tail |
| DatabaseCache.GetterToFieldNameRoundTrip | src/main/java/in/asvignesh/databasewrapper/utils/DatabaseUtils.java:175-181 | the intended rule, which drops only a leading "get", inverts the getter rule |
| DatabaseCache.MethodToFieldNameOfGetter | src/main/java/in/asvignesh/databasewrapper/utils/DatabaseUtils.java:175-181 | methodToFieldName as written inverts the getter rule when "get" does not occur inside the name |
| DatabaseCache.MethodToFieldNameDropsInnerGet | src/main/java/in/asvignesh/databasewrapper/utils/DatabaseUtils.java:175-177 | as written, the getter of field "budget" maps back to "bud" |
| DatabaseCache.DerivedTableNamePrefix | src/main/java/in/asvignesh/databasewrapper/core/DatabaseCache.java:57-61 | the prefix and "_" are used exactly when the prefix holds a non-blank character |
| DatabaseCache.TableNameOfAnnotated | src/main/java/in/asvignesh/databasewrapper/core/DatabaseCache.java:98-106 | a non-empty @Table name wins over the derived name |
| DatabaseCache.PkFieldOf | src/main/java/in/asvignesh/databasewrapper/core/DatabaseCache.java:119-128 | without @Table the primary-key field is "id" |
| DatabaseCache.ColumnMappingContents | src/main/java/in/asvignesh/databasewrapper/core/DatabaseCache.java:42-48 | a built mapping maps every field's column name to that field's name and holds nothing else |
| DatabaseCache.ColumnMappingOkIff | src/main/java/in/asvignesh/databasewrapper/core/DatabaseCache.java:42-48 | the mapping is built exactly when the column names are distinct; otherwise toMap throws |
| DatabaseCache.MetadataCache.constructor | src/main/java/in/asvignesh/databasewrapper/core/DatabaseCache.java:26-40 | every cache starts empty and valid |
| DatabaseCache.MetadataCache.ComputeModelFields | src/main/java/in/asvignesh/databasewrapper/core/DatabaseCache.java:50-55 | returns and caches the persistable fields; the other caches are unchanged |
| DatabaseCache.MetadataCache.ComputeModelColumnMappings | src/main/java/in/asvignesh/databasewrapper/core/DatabaseCache.java:42-48 | returns the mapping or the duplicate-key error; only a built mapping is cached, and a cache hit leaves the field cache untouched |
| DatabaseCache.MetadataCache.TableName | src/main/java/in/asvignesh/databasewrapper/core/DatabaseCache.java:98-106 | a cached name is returned unchanged; otherwise the derived one is computed and stored |
| DatabaseCache.MetadataCache.PkColumn | src/main/java/in/asvignesh/databasewrapper/core/DatabaseCache.java:108-117 | returns and caches the @Table pk, else "id" |
| DatabaseCache.MetadataCache.PkField | src/main/java/in/asvignesh/databasewrapper/core/DatabaseCache.java:119-128 | returns toCamelName of the pk column and caches it, or propagates its exception |
| DatabaseCache.MetadataCache.GetterNameFor | src/main/java/in/asvignesh/databasewrapper/core/DatabaseCache.java:88-91 | returns and caches the getter name |
| DatabaseCache.MetadataCache.SetterNameFor | src/main/java/in/asvignesh/databasewrapper/core/DatabaseCache.java:93-96 | returns and caches the setter name |
| DatabaseCache.MetadataCache.ColumnName | src/main/java/in/asvignesh/databasewrapper/core/DatabaseCache.java:63-74 | returns whatever is filed under "SimpleClass_field", computing and storing it only when absent |
| DatabaseCache.MetadataCache.UpdateOnDuplicate | src/main/java/in/asvignesh/databasewrapper/core/DatabaseCache.java:76-86 | the @Column flag, else false, filed under the same key |
| DatabaseCache.ColumnNameKeyCollision | src/main/java/in/asvignesh/databasewrapper/core/DatabaseCache.java:65 | two classes named User in different packages share a key, so the second field's @Column name "login" is answered with "user_name" |
| DatabaseCache.FieldColumnCache.ColumnName | src/main/java/in/asvignesh/databasewrapper/core/DatabaseCache.java:63-74 | keyed by the field itself, the cache always answers the field's own column name |
| ModelValues.ColumnValuesWithNulls | src/main/java/in/asvignesh/databasewrapper/utils/DatabaseUtils.java:83-101 | with nulls allowed there is one entry per field, holding that field's value |
| ModelValues.ColumnValuesWithoutNulls | src/main/java/in/asvignesh/databasewrapper/utils/DatabaseUtils.java:83-101 | without nulls the list is exactly the non-null values in field order |
| ModelValues.ColumnValuesLength | src/main/java/in/asvignesh/databasewrapper/utils/DatabaseUtils.java:83-101 | without nulls the list is shorter by the number of null fields |
| ModelValues.ToColumnValues | src/main/java/in/asvignesh/databasewrapper/utils/DatabaseUtils.java:83-101 | the loop yields the column values of the persistable fields |
| ModelValues.ToColumnValuesDuplicate | src/main/java/in/asvignesh/databasewrapper/utils/DatabaseUtils.java:103-123 | the same, restricted to the fields flagged updateOnDuplicate |
| ModelValues.SelectableColumnsMembers | src/main/java/in/asvignesh/databasewrapper/utils/DatabaseUtils.java:125-138 | a column is listed exactly when a non-ignored field has that column name and it is not excluded |
| ModelValues.ColumnListNoExclusions | src/main/java/in/asvignesh/databasewrapper/utils/DatabaseUtils.java:125-138 | without exclusions every persistable column is listed, in field order |
| ModelValues.BuildColumns | src/main/java/in/asvignesh/databasewrapper/utils/DatabaseUtils.java:125-138 | the loop yields the comma-joined selectable columns, or "*" when none remain |
| ModelValues.GetAndRemovePrimaryKey | src/main/java/in/asvignesh/databasewrapper/utils/DatabaseUtils.java:183-190 | returns the pk value and clears the pk field only when that value is non-null; the model is otherwise unchanged |
| Dialect.PlaceholdersCount | src/main/java/in/asvignesh/databasewrapper/dialect/Dialect.java:62-76 | n placeholders carry exactly n '?' |
| Dialect.BoundCount | src/main/java/in/asvignesh/databasewrapper/dialect/Dialect.java:90-137 | "col = ?" items carry one '?' per column |
| Dialect.WhereClauseCount | src/main/java/in/asvignesh/databasewrapper/dialect/Dialect.java:32-34 | WHERE appears exactly when the condition is non-empty and brings the condition's '?' |
| Dialect.SelectCustomWins | src/main/java/in/asvignesh/databasewrapper/dialect/Dialect.java:15-44 | custom SQL is used verbatim; table, condition, columns and exclusions are then irrelevant |
| Dialect.SelectColumnsWin | src/main/java/in/asvignesh/databasewrapper/dialect/Dialect.java:20-28 | explicit select columns make the exclusions irrelevant |
| Dialect.SelectStar | src/main/java/in/asvignesh/databasewrapper/dialect/Dialect.java:15-44 | without columns or exclusions the select is exactly SELECT * FROM table, then the optional WHERE, ORDER BY and LIMIT ? |
| Dialect.SelectCount | src/main/java/in/asvignesh/databasewrapper/dialect/Dialect.java:15-44 | a rendered select carries the condition's '?', plus one for LIMIT ? |
| Dialect.CountSqlCount | src/main/java/in/asvignesh/databasewrapper/dialect/Dialect.java:46-53 | the count statement carries exactly the condition's '?' |
| Dialect.Insert | src/main/java/in/asvignesh/databasewrapper/dialect/Dialect.java:55-77 | the loops yield INSERT INTO table with the non-null columns and as many placeholders |
| Dialect.InsertOnDuplicate | src/main/java/in/asvignesh/databasewrapper/dialect/Dialect.java:79-110 | adds ON DUPLICATE KEY UPDATE for the non-null flagged columns, and only when there are some |
| Dialect.InsertTail | src/main/java/in/asvignesh/databasewrapper/dialect/Dialect.java:72-74 | cutting the leading ", " off both builders gives "(columns) VALUES (placeholders)", and nothing without a column |
| Dialect.DuplicateTail | src/main/java/in/asvignesh/databasewrapper/dialect/Dialect.java:106-107 | cutting the leading ", " off the builder gives the ON DUPLICATE KEY UPDATE part, and nothing without a flagged column |
| Dialect.InsertColumnsMembers | src/main/java/in/asvignesh/databasewrapper/dialect/Dialect.java:62-69 | a column is inserted exactly when its value is non-null |
| Dialect.InsertTextCount | src/main/java/in/asvignesh/databasewrapper/dialect/Dialect.java:62-76 | one '?' per inserted column; with no value the bare INSERT INTO table |
| Dialect.DuplicateTextCount | src/main/java/in/asvignesh/databasewrapper/dialect/Dialect.java:90-107 | one '?' per column in the ON DUPLICATE KEY UPDATE part |
| Dialect.ModelAssignments | src/main/java/in/asvignesh/databasewrapper/dialect/Dialect.java:124-133 | the loop yields "col = ?" for each non-null model column |
| Dialect.Update | src/main/java/in/asvignesh/databasewrapper/dialect/Dialect.java:112-142 | the update-map keys in order, else the model's non-null columns; with neither, substring(0, -2) throws |
| Dialect.UpdateAssignments | src/main/java/in/asvignesh/databasewrapper/dialect/Dialect.java:118-119 | the forEach writes "key = ?, " for every update column, in insertion order |
| Dialect.Delete | src/main/java/in/asvignesh/databasewrapper/dialect/Dialect.java:144-172 | the condition when there is one, else the non-null columns joined by " and ", else no WHERE |
| Dialect.UpdateCount | src/main/java/in/asvignesh/databasewrapper/dialect/Dialect.java:112-142 | an update carries one '?' per assigned column plus the condition's |
| Dialect.DeleteCount | src/main/java/in/asvignesh/databasewrapper/dialect/Dialect.java:144-172 | a delete's '?' are the condition's, else one per non-null column, else none |
| Dialect.InsertColumnsOfModel | src/main/java/in/asvignesh/databasewrapper/dialect/Dialect.java:62-69 | with a model's null-keeping values the inserted columns are its non-null columns |
| Dialect.NonNullColumnsCount | src/main/java/in/asvignesh/databasewrapper/dialect/Dialect.java:124-133 | the non-null columns are as many as the null-skipping values |
| Dialect.SaveAligned | src/main/java/in/asvignesh/databasewrapper/dialect/Dialect.java:55-110 | both inserts carry one '?' per value save binds |
| MySQLDialect.Offset | src/main/java/in/asvignesh/databasewrapper/dialect/MySQLDialect.java:12-13 | the offset agrees with pageSize * (pageNum - 1) modulo 2^32 |
| MySQLDialect.FirstPageOffset | src/main/java/in/asvignesh/databasewrapper/dialect/MySQLDialect.java:13 | page 1 starts at offset 0 |
| MySQLDialect.OffsetWithoutOverflow | src/main/java/in/asvignesh/databasewrapper/dialect/MySQLDialect.java:13 | without overflow the offset is the exact product and non-negative |
| MySQLDialect.OffsetOverflows | src/main/java/in/asvignesh/databasewrapper/dialect/MySQLDialect.java:13 | page 32769 of 65536 rows wraps to -2^31 |
| MySQLDialect.PaginateExtendsSelect | src/main/java/in/asvignesh/databasewrapper/dialect/MySQLDialect.java:10-19 | the page statement is the select followed by " LIMIT offset,size"; a missing page row throws |
| QueryClauses.ClauseCount | src/main/java/in/asvignesh/databasewrapper/core/Query.java:163-445 | each condition builder appends one '?' per value it binds, plus any '?' the caller's own text brings |
| QueryClauses.InWithoutArgsIsNoOp | src/main/java/in/asvignesh/databasewrapper/core/Query.java:402-411 | in() with null or no arguments changes nothing |
| QueryClauses.AddClauseExcess | src/main/java/in/asvignesh/databasewrapper/core/Query.java:163-445 | a clause keeps '?' and values aligned exactly when its caller text brings no '?' |
| QueryClauses.AddClausesAligned | src/main/java/in/asvignesh/databasewrapper/core/Query.java:163-445 | any chain of such clauses keeps the query aligned |
| QueryClauses.ModelConditionsShape | src/main/java/in/asvignesh/databasewrapper/core/Query.java:191-209 | where(model) adds at most one condition per field, none bringing an extra '?' |
| QueryClauses.AddOrderAppends | src/main/java/in/asvignesh/databasewrapper/core/Query.java:448-454 | order fragments accumulate in call order, comma-separated, without de-duplication |
| QueryClauses.KeyIndex | src/main/java/in/asvignesh/databasewrapper/core/Query.java:61 | the key's position in the insertion-ordered map, or -1 exactly when it is absent |
| QueryClauses.PutSpec | src/main/java/in/asvignesh/databasewrapper/core/Query.java:626-629 | after put the key maps to the new value, other keys are unchanged, keys keep their order and stay distinct |
| QueryClauses.SelectOnce | src/main/java/in/asvignesh/databasewrapper/core/Query.java:155-161 | a first select(columns) succeeds and a second throws |
| QueryClauses.CleanedResets | src/main/java/in/asvignesh/databasewrapper/core/Query.java:1069-1080 | clean() empties every accumulated part, keeps model class, table and pk, and is idempotent |
| NamedParams.ParamName | src/main/java/in/asvignesh/databasewrapper/core/Query.java:737-740 | every name starts with ":p" and holds no '?' |
| NamedParams.ReplaceFirst | src/main/java/in/asvignesh/databasewrapper/core/Query.java:739 | replaceFirst replaces the first occurrence only, and changes nothing when there is none |
| NamedParams.RewriteRemovesMarks | src/main/java/in/asvignesh/databasewrapper/core/Query.java:737-740 | the rewritten statement holds no '?' |
| NamedParams.NthMarkName | src/main/java/in/asvignesh/databasewrapper/core/Query.java:737-740 | the k-th '?' from the left becomes ":pk" |
| NamedParams.RewriteIdempotent | src/main/java/in/asvignesh/databasewrapper/core/Query.java:737-740 | rewriting twice is rewriting once |
| NamedParams.RewriteAppend | src/main/java/in/asvignesh/databasewrapper/core/Query.java:737-740 | the rewrite of a concatenation numbers the second part on from the first |
| NamedParams.RewritePlaceholders | src/main/java/in/asvignesh/databasewrapper/core/Query.java:734-750 | the while loop yields the numbered rewrite, which holds no '?' |
| QueryOps.WherePk | src/main/java/in/asvignesh/databasewrapper/core/Query.java:472-483 | the pk condition is added with the id bound; without a pk column the query throws |
| QueryOps.QueryRows | src/main/java/in/asvignesh/databasewrapper/core/Query.java:907-921 | the select runs with the accumulated values and the query is cleaned; a render error leaves it untouched |
| QueryOps.All | src/main/java/in/asvignesh/databasewrapper/core/Query.java:506-512 | without a model class the query throws FROM_NOT_NULL and stays as it was |
| QueryOps.One | src/main/java/in/asvignesh/databasewrapper/core/Query.java:492-503 | the same check before the ordered select with queryOne's limit |
| QueryOps.ById | src/main/java/in/asvignesh/databasewrapper/core/Query.java:472-483 | the same check before the pk condition and select |
| QueryOps.LimitRows | src/main/java/in/asvignesh/databasewrapper/core/Query.java:553-557 | without SQL limits the first min(n, size) rows; a negative n throws |
| QueryOps.CountRows | src/main/java/in/asvignesh/databasewrapper/core/Query.java:619-623 | the count binds the condition's values and cleans the query |
| QueryOps.CountFromSql | src/main/java/in/asvignesh/databasewrapper/core/Query.java:608-610 | SELECT COUNT(*) followed by the statement from its first FROM; without FROM substring throws |
| QueryOps.PageOf | src/main/java/in/asvignesh/databasewrapper/core/Query.java:577-606 | the count statement first, then the page statement only when the total is positive; the query is cleaned |
| QueryOps.Page | src/main/java/in/asvignesh/databasewrapper/core/Query.java:613-616 | a select that cannot render throws before anything else |
| QueryOps.Execute | src/main/java/in/asvignesh/databasewrapper/core/Query.java:734-750 | the statement has no '?', binds the given values (none for null) and cleans the query |
| QueryOps.Save | src/main/java/in/asvignesh/databasewrapper/core/Query.java:780-799 | save binds exactly the model's non-null values in field order |
| QueryOps.SaveOrUpdateOnDuplicate | src/main/java/in/asvignesh/databasewrapper/core/Query.java:801-832 | the non-null values, then the non-null flagged values |
| QueryOps.Delete | src/main/java/in/asvignesh/databasewrapper/core/Query.java:834-837 | delete binds the condition values and cleans |
| QueryOps.DeleteByModel | src/main/java/in/asvignesh/databasewrapper/core/Query.java:845-850 | binds the model's non-null values |
| QueryOps.Values | src/main/java/in/asvignesh/databasewrapper/core/Query.java:855-857 | the update map's values in insertion order |
| QueryOps.Update | src/main/java/in/asvignesh/databasewrapper/core/Query.java:853-860 | without a model class it throws; a successful update cleans the query |
| QueryOps.UpdateWithKey | src/main/java/in/asvignesh/databasewrapper/core/Query.java:878-893 | after the key is read, the update either leaves the query untouched or cleans it |
| QueryProperties.AddClausesLead | src/main/java/in/asvignesh/databasewrapper/core/Query.java:163-445 | a chain of predicates keeps the five characters the renderer drops free of '?' |
| QueryProperties.AlignedCondition | src/main/java/in/asvignesh/databasewrapper/dialect/Dialect.java:32-42 | an aligned query renders exactly as many '?' as it has values |
| QueryProperties.QueryRowsAligned | src/main/java/in/asvignesh/databasewrapper/core/Query.java:907-921 | a select built from a well-formed query binds one value per '?' |
| QueryProperties.AllAligned | src/main/java/in/asvignesh/databasewrapper/core/Query.java:492-512 | all() and one() bind one value per '?' and clean the query |
| QueryProperties.WherePkAligned | src/main/java/in/asvignesh/databasewrapper/core/Query.java:472-483 | the pk condition keeps the query aligned, with the id bound last |
| QueryProperties.ByIdAligned | src/main/java/in/asvignesh/databasewrapper/core/Query.java:472-483 | byId binds the id after every earlier value, one per '?' |
| QueryProperties.ByIdsWithoutIds | src/main/java/in/asvignesh/databasewrapper/core/Query.java:486-489 | byIds with no ids is all() |
| QueryProperties.LimitAligned | src/main/java/in/asvignesh/databasewrapper/core/Query.java:546-552 | with SQL limits the select ends in LIMIT ? and n is bound last |
| QueryProperties.CountAligned | src/main/java/in/asvignesh/databasewrapper/core/Query.java:619-623 | count() binds one value per '?' |
| QueryProperties.FromAfterStar | src/main/java/in/asvignesh/databasewrapper/core/Query.java:608-610 | in "SELECT * FROM …" the first FROM is at position 9 |
| QueryProperties.StarSelectCount | src/main/java/in/asvignesh/databasewrapper/core/Query.java:608-610 | cutting a plain star select at its FROM gives the count statement |
| QueryProperties.PageStatementsOfSelect | src/main/java/in/asvignesh/databasewrapper/core/Query.java:577-616 | page(pageRow) counts with the count statement and pages the select with the LIMIT suffix |
| QueryProperties.UpdateBindOrder | src/main/java/in/asvignesh/databasewrapper/core/Query.java:853-860 | update() binds the set values in insertion order, then the condition values, one per '?' |
| QueryProperties.UpdateByIdBindOrder | src/main/java/in/asvignesh/databasewrapper/core/Query.java:863-866 | updateById(id) binds the id last |
| QueryProperties.DeleteAligned | src/main/java/in/asvignesh/databasewrapper/core/Query.java:834-837 | delete() binds one value per '?'; without a condition it binds nothing |
| QueryProperties.SaveBindsEveryMark | src/main/java/in/asvignesh/databasewrapper/core/Query.java:780-832 | both inserts bind exactly one value per '?' |
| QueryProperties.UpdateWithKeyShape | src/main/java/in/asvignesh/databasewrapper/core/Query.java:878-893 | a non-null key adds " WHERE pk = ?" and is bound last; a null key adds no WHERE |
| QueryProperties.UpdateModelByIdMisbinds | src/main/java/in/asvignesh/databasewrapper/core/Query.java:869-875 | as written, the statement has one '?' per bound value plus one per earlier condition value |
| QueryProperties.UpdateModelByIdCounterexample | src/main/java/in/asvignesh/databasewrapper/core/Query.java:869-875 | where("age", 3).updateById(model, 7) renders three '?' and binds two values |
| QueryProperties.UpdateModelByIdCorrectedAligned | src/main/java/in/asvignesh/databasewrapper/core/Query.java:869-875 | binding every condition value after the model's gives one value per '?' |
| QueryProperties.ExecuteDmlDispatch | src/main/java/in/asvignesh/databasewrapper/core/Query.java:722-731 | execute() runs update() or delete() as the DML type says; any other type throws |
| QueryBuilder.RepeatThenMark | src/main/java/in/asvignesh/databasewrapper/core/Query.java:895-904 | "?, " k times followed by "?" is k + 1 placeholders |
| QueryBuilder.Query.constructor | src/main/java/in/asvignesh/databasewrapper/core/Query.java:44-82 | a new query is empty |
| QueryBuilder.Query.OfDml | src/main/java/in/asvignesh/databasewrapper/core/Query.java:84-86 | an empty query with the DML type set |
| QueryBuilder.Query.OfModel | src/main/java/in/asvignesh/databasewrapper/core/Query.java:88-90 | an empty query parsed for the model class |
| QueryBuilder.Query.Parse | src/main/java/in/asvignesh/databasewrapper/core/Query.java:134-139 | sets model class, cached table name and pk column |
| QueryBuilder.Query.Exclude | src/main/java/in/asvignesh/databasewrapper/core/Query.java:142-145 | appends the exclusions |
| QueryBuilder.Query.Select | src/main/java/in/asvignesh/databasewrapper/core/Query.java:155-161 | sets the columns, or throws and leaves the query unchanged |
| QueryBuilder.Query.Where | src/main/java/in/asvignesh/databasewrapper/core/Query.java:163-166 | appends " AND " and the statement, with no value |
| QueryBuilder.Query.WhereValue | src/main/java/in/asvignesh/databasewrapper/core/Query.java:168-175 | appends " AND " and the statement, " = ?" only when it has no '?', and exactly one value |
| QueryBuilder.Query.WhereModel | src/main/java/in/asvignesh/databasewrapper/core/Query.java:191-209 | the loop adds, in declaration order, one condition binding the value under the column name for each field that is not null and not a String-declared field holding "" |
| QueryBuilder.Query.Or | src/main/java/in/asvignesh/databasewrapper/core/Query.java:234-242 | the same as where(statement, value), wrapped in " OR (" … ")" |
| QueryBuilder.Query.Compare | src/main/java/in/asvignesh/databasewrapper/core/Query.java:244-399 | eq, notEq, like, gt, gte, lt and lte append their operator with one '?' and one value |
| QueryBuilder.Query.Between | src/main/java/in/asvignesh/databasewrapper/core/Query.java:303-322 | appends BETWEEN ? and ? with both bounds, in order |
| QueryBuilder.Query.NotEmpty | src/main/java/in/asvignesh/databasewrapper/core/Query.java:261-274 | appends the not-empty test, with no value |
| QueryBuilder.Query.NotNull | src/main/java/in/asvignesh/databasewrapper/core/Query.java:277-280 | appends IS NOT NULL, with no value |
| QueryBuilder.Query.In | src/main/java/in/asvignesh/databasewrapper/core/Query.java:402-423 | appends IN (n placeholders) and the arguments in order; nothing for null or no arguments |
| QueryBuilder.Query.SetArguments | src/main/java/in/asvignesh/databasewrapper/core/Query.java:895-904 | the index loop appends n '?' separated by ", " and the arguments in order |
| QueryBuilder.Query.Order | src/main/java/in/asvignesh/databasewrapper/core/Query.java:448-454 | appends the fragment to ORDER BY |
| QueryBuilder.Query.OrderBy | src/main/java/in/asvignesh/databasewrapper/core/Query.java:457-463 | appends "column direction" to ORDER BY |
| QueryBuilder.Query.Set | src/main/java/in/asvignesh/databasewrapper/core/Query.java:626-629 | the column maps to the value and no other assignment changes |
| QueryBuilder.Query.UseSql | src/main/java/in/asvignesh/databasewrapper/core/Query.java:1001-1004 | sets the custom-SQL flag |
| QueryBuilder.Query.Clean | src/main/java/in/asvignesh/databasewrapper/core/Query.java:1069-1080 | resets every accumulated part |
| QueryBuilder.Query.BeforeCheck | src/main/java/in/asvignesh/databasewrapper/core/Query.java:1007-1009 | passes exactly when a model class is set, else the FROM_NOT_NULL error |
| QueryBuilder.Query.WherePrimaryKey | src/main/java/in/asvignesh/databasewrapper/core/Query.java:472-483 | the new state is QueryOps.WherePk's |
| QueryBuilder.Query.RunSelect | src/main/java/in/asvignesh/databasewrapper/core/Query.java:907-921 | returns QueryOps.QueryRows's statement and state |
| QueryBuilder.Query.All | src/main/java/in/asvignesh/databasewrapper/core/Query.java:506-512 | the QueryOps.All transition |
| QueryBuilder.Query.One | src/main/java/in/asvignesh/databasewrapper/core/Query.java:492-503 | the QueryOps.One transition |
| QueryBuilder.Query.ById | src/main/java/in/asvignesh/databasewrapper/core/Query.java:472-483 | the QueryOps.ById transition |
| QueryBuilder.Query.ByIds | src/main/java/in/asvignesh/databasewrapper/core/Query.java:486-489 | the QueryOps.ByIds transition |
| QueryBuilder.Query.Limit | src/main/java/in/asvignesh/databasewrapper/core/Query.java:546-559 | the QueryOps.Limit transition |
| QueryBuilder.Query.Count | src/main/java/in/asvignesh/databasewrapper/core/Query.java:619-623 | the QueryOps.CountRows transition |
| QueryBuilder.Query.PageOf | src/main/java/in/asvignesh/databasewrapper/core/Query.java:577-606 | the QueryOps.PageOf transition |
| QueryBuilder.Query.Page | src/main/java/in/asvignesh/databasewrapper/core/Query.java:613-616 | the QueryOps.Page transition |
| QueryBuilder.Query.Execute | src/main/java/in/asvignesh/databasewrapper/core/Query.java:734-777 | the QueryOps.Execute transition, using the rewrite loop |
| QueryBuilder.Query.Save | src/main/java/in/asvignesh/databasewrapper/core/Query.java:780-799 | the QueryOps.Save transition |
| QueryBuilder.Query.SaveOrUpdateOnDuplicate | src/main/java/in/asvignesh/databasewrapper/core/Query.java:801-832 | the QueryOps.SaveOrUpdateOnDuplicate transition |
| QueryBuilder.Query.Delete | src/main/java/in/asvignesh/databasewrapper/core/Query.java:834-837 | the QueryOps.Delete transition |
| QueryBuilder.Query.DeleteById | src/main/java/in/asvignesh/databasewrapper/core/Query.java:840-843 | the QueryOps.DeleteById transition |
| QueryBuilder.Query.DeleteByModel | src/main/java/in/asvignesh/databasewrapper/core/Query.java:845-850 | the QueryOps.DeleteByModel transition |
| QueryBuilder.Query.Update | src/main/java/in/asvignesh/databasewrapper/core/Query.java:853-860 | the loop over the update map gives the QueryOps.Update transition |
| QueryBuilder.Query.UpdateById | src/main/java/in/asvignesh/databasewrapper/core/Query.java:863-866 | the QueryOps.UpdateById transition |
| QueryBuilder.Query.UpdateModelById | src/main/java/in/asvignesh/databasewrapper/core/Query.java:869-875 | the corrected transition, with every condition value bound |
| QueryBuilder.Query.UpdateByModel | src/main/java/in/asvignesh/databasewrapper/core/Query.java:878-893 | the QueryOps.UpdateByModel transition; the model's pk is cleared as it prescribes |
| QueryBuilder.Query.ExecuteDml | src/main/java/in/asvignesh/databasewrapper/core/Query.java:722-731 | the QueryOps.ExecuteDml transition |
| Transactions.Begin | src/main/java/in/asvignesh/databasewrapper/core/Query.java:93-99 | binds a connection only when the slot is empty; an opening failure is reported and the slot is unchanged |
| Transactions.Commit | src/main/java/in/asvignesh/databasewrapper/core/Query.java:112-114 | commits the bound connection; with none bound it throws NullPointerException |
| Transactions.Rollback | src/main/java/in/asvignesh/databasewrapper/core/Query.java:117-123 | rolls back only a bound connection and keeps it bound |
| Transactions.End | src/main/java/in/asvignesh/databasewrapper/core/Query.java:102-109 | always leaves the slot empty, closing a connection that rolls back on close |
| Transactions.BeginBindsOnce | src/main/java/in/asvignesh/databasewrapper/core/Query.java:93-114 | a second begin keeps the first connection, which is the one committed and ended |
| Transactions.TransactionSlot.constructor | src/main/java/in/asvignesh/databasewrapper/core/Query.java:45 | the slot starts empty |
| Transactions.TransactionSlot.BeginTransaction | src/main/java/in/asvignesh/databasewrapper/core/Query.java:93-99 | the Begin step |
| Transactions.TransactionSlot.EndTransaction | src/main/java/in/asvignesh/databasewrapper/core/Query.java:102-109 | the End step |
| Transactions.TransactionSlot.CommitTransaction | src/main/java/in/asvignesh/databasewrapper/core/Query.java:112-114 | the Commit step |
| Transactions.TransactionSlot.RollbackTransaction | src/main/java/in/asvignesh/databasewrapper/core/Query.java:117-123 | the Rollback step |
| ResultKeys.AsLong | src/main/java/in/asvignesh/databasewrapper/core/ResultKey.java:24-26 | succeeds exactly for a null or Long key and returns it; otherwise a cast error |
| ResultKeys.AsBigInteger | src/main/java/in/asvignesh/databasewrapper/core/ResultKey.java:28-30 | succeeds exactly for a null or BigInteger key and returns it; otherwise a cast error |
| ResultKeys.AsInt | src/main/java/in/asvignesh/databasewrapper/core/ResultKey.java:13-21 | fails exactly for a key that is neither null, Integer, Long nor BigInteger |
| ResultKeys.AsString | src/main/java/in/asvignesh/databasewrapper/core/ResultKey.java:32-34 | fails with NullPointerException exactly for a null key |
| ResultKeys.AsIntNarrows | src/main/java/in/asvignesh/databasewrapper/core/ResultKey.java:13-21 | a wide key is narrowed to its low 32 bits and kept as is when it fits |
| ResultKeys.AsIntAgreesWithAsLong | src/main/java/in/asvignesh/databasewrapper/core/ResultKey.java:13-26 | asInt and asLong agree on a Long key that fits in an int |
| ResultKeys.AsIntWrapsAround | src/main/java/in/asvignesh/databasewrapper/core/ResultKey.java:15-16 | the Long 2^32 + 5 reads back as 5 |
| Atomics.Atomic.Ok | src/main/java/in/asvignesh/databasewrapper/core/Atomic.java:17-19 | no exception, not rolled back |
| Atomics.Atomic.Error | src/main/java/in/asvignesh/databasewrapper/core/Atomic.java:21-23 | holds the exception, not rolled back |
| Atomics.Atomic.Rollback | src/main/java/in/asvignesh/databasewrapper/core/Atomic.java:25-28 | records the decision, keeps the exception, returns this |
| Atomics.Atomic.CatchException | src/main/java/in/asvignesh/databasewrapper/core/Atomic.java:34-39 | the consumer receives the stored exception exactly once, and nothing when there is none |
| Atomics.Atomic.CatchAndReturn | src/main/java/in/asvignesh/databasewrapper/core/Atomic.java:41-46 | function(e) when there is an exception, else null |
| QueryMetas.WithMapping | src/main/java/in/asvignesh/databasewrapper/core/QueryMeta.java:21-26 | the column maps to the field and every other entry is kept |
| QueryMetas.QueryMeta.WithStatement | src/main/java/in/asvignesh/databasewrapper/core/QueryMeta.java:16-19 | stores sql and params, with no mapping yet |
| QueryMetas.QueryMeta.HasColumnMapping | src/main/java/in/asvignesh/databasewrapper/core/QueryMeta.java:28-30 | true exactly when a mapping exists and holds an entry |
| QueryMetas.QueryMeta.AddColumnMapping | src/main/java/in/asvignesh/databasewrapper/core/QueryMeta.java:21-26 | allocates the map when absent, then puts the column; sql and params are unchanged |
| DatabaseWrappers.DatabaseWrapper.constructor | src/main/java/in/asvignesh/databasewrapper/DatabaseWrapper.java:42-64 | no driver and no prefix; MySQL, RuntimeException as the rollback trigger, statistics and SQL limits on |
| DatabaseWrappers.DatabaseWrapper.SetSql2o | src/main/java/in/asvignesh/databasewrapper/DatabaseWrapper.java:40-46 | stores the driver; nothing else changes |
| DatabaseWrappers.DatabaseWrapper.RollbackException | src/main/java/in/asvignesh/databasewrapper/DatabaseWrapper.java:340-347 | stores the class and returns this |
| DatabaseWrappers.DatabaseWrapper.TablePrefix | src/main/java/in/asvignesh/databasewrapper/DatabaseWrapper.java:355-362 | stores the prefix and returns this |
| DatabaseWrappers.DatabaseWrapper.Dialect | src/main/java/in/asvignesh/databasewrapper/DatabaseWrapper.java:370-377 | stores the dialect and returns this |
| DatabaseWrappers.DatabaseWrapper.EnableSqlStatistic | src/main/java/in/asvignesh/databasewrapper/DatabaseWrapper.java:385-392 | stores the switch and returns this |
| DatabaseWrappers.DatabaseWrapper.UseSqlLimit | src/main/java/in/asvignesh/databasewrapper/DatabaseWrapper.java:400-407 | stores the switch and returns this |
| DatabaseWrappers.DatabaseWrapper.AddConverter | src/main/java/in/asvignesh/databasewrapper/DatabaseWrapper.java:415-424 | throws exactly for null or no converters, else returns this |
| DatabaseWrappers.Registry.Of | src/main/java/in/asvignesh/databasewrapper/DatabaseWrapper.java:103-107 | returns the instance exactly when it and its driver are non-null, else the SQL2O_IS_NULL error |
| DatabaseWrappers.Registry.Open | src/main/java/in/asvignesh/databasewrapper/DatabaseWrapper.java:115-120 | a fresh wrapper with the defaults and the driver replaces the instance |
| DatabaseWrappers.AtomicRun | src/main/java/in/asvignesh/databasewrapper/DatabaseWrapper.java:193-213 | the slot is always left empty; rolled back exactly when the exception is an instance of the configured class |
| DatabaseWrappers.AtomicCommits | src/main/java/in/asvignesh/databasewrapper/DatabaseWrapper.java:193-198 | normal completion begins, commits and ends the connection and reports ok, not rolled back |
| DatabaseWrappers.AtomicRollsBackIff | src/main/java/in/asvignesh/databasewrapper/DatabaseWrapper.java:199-209 | a thrown exception is reported, nothing is committed, and it rolls back exactly when it is an instance of the configured class |
| DatabaseWrappers.NestedAtomicEndsOuter | src/main/java/in/asvignesh/databasewrapper/DatabaseWrapper.java:193-213 | a nested atomic commits and ends the outer connection, so the outer commit throws NullPointerException |
| DatabaseWrappers.SuccessiveAtomicsOpenAgain | src/main/java/in/asvignesh/databasewrapper/core/Query.java:93-99 | after a nested atomic has ended the outer connection, the next nested atomic begins a connection of its own and commits it, and the outer commit still throws NullPointerException |
| DatabaseWrappers.AtomicWithoutConnection | src/main/java/in/asvignesh/databasewrapper/DatabaseWrapper.java:194-195 | when no transaction can be opened the runnable does not run and the error is reported |
| DatabaseWrappers.Atomic | src/main/java/in/asvignesh/databasewrapper/DatabaseWrapper.java:193-213 | builds the Atomic AtomicRun describes and leaves the slot as it says |
| DatabaseWrappers.Run | src/main/java/in/asvignesh/databasewrapper/DatabaseWrapper.java:196 | runs the runnable, nested atomics included, as RunWork describes |

## Left out

- sql2o itself is not modelled: the driver calls, opening and closing connections, result mapping and the statistics log. The terminal operations return the statement they would run. Where the driver's answer matters it is a parameter: the page total, the outcome of opening a transaction, the rollback-on-close flag.
- `ThreadLocal` and `ConcurrentHashMap` are modelled as one slot and as plain maps. Concurrency is not modelled.
- Reflection is replaced by explicit descriptors: annotation lookup, getters and setters, `invokeMethod`, `isBasicType` and `getConverterType`. A model object is a map from field names to values, and every field is assumed to have its getter and setter.
- Lambda column references (`TypeFunction` overloads, `getLambdaColumnName`, `getLambdaFieldName`) are modelled by the column name they resolve to. The reference-taking overloads therefore share the members of their string counterparts.
- `English.plural` is a function parameter, because its source is not part of this model.
- `toUpperCase` and `toLowerCase` are modelled on ASCII letters only.
- `setJoin` and `join` are left out: join loading runs further queries through the driver.
- `stream`, `parallel`, `map` and `filter` are Java stream plumbing. Only `limit`'s use of `Stream.limit` is modelled.
- The following are facades that add no logic of their own: the `open(url…)` and `open(DataSource…)` overloads, the deprecated `me()`, `saveBatch`, `deleteBatch`, `getSql2o`, `bindSQL2o`, and the static `select`, `update`, `delete`, `save`, `deleteById` and `execute` shortcuts of `DatabaseWrapper`.
- `queryOne`, `queryList` and `queryListMap` are modelled only as the statement and values they pass to the driver.
- DatabaseWrappers.Atomic: the rollback class is a parameter. `of()` failing inside the catch block is not modelled. Every modelled exception counts as an `Exception`.
- DatabaseWrappers.DatabaseWrapper.AddConverter: the loop over the converters only computes types through reflection and discards them, so it is not modelled.
- Getters of `DatabaseWrapper` read the fields; `Config()` exposes them.
- DatabaseCache.MetadataCache.ColumnName: the memo reproduces the source's key collision; the corrected cache is DatabaseCache.FieldColumnCache.
- QueryBuilder.Query.UpdateModelById: the class uses the corrected binding; the as-written one is QueryOps.UpdateModelById.
- The SQL renderers and the where(model) loop take each field's column name and duplicate flag from the field itself. This is what the corrected per-field cache (DatabaseCache.FieldColumnCache) returns. The source asks the shared memo (`getColumnName`, `updateOnDuplicate`), which gives the same answer unless an earlier lookup filed a different field under the same key: a class with the same simple name and a field of the same name (DatabaseCache.ColumnNameKeyCollision). Such a history is not modelled in the renderers. The members affected are listed below.
- Insert (Dialect.Insert): the column names are each field's own, not the shared memo's answer at Dialect.java:67.
- InsertOnDuplicate (Dialect.InsertOnDuplicate): the column names and updateOnDuplicate flags are each field's own, not the shared memo's answers at Dialect.java:93-97.
- ModelAssignments (Dialect.ModelAssignments): the "col = ?" names are each field's own, not the shared memo's answer at Dialect.java:130.
- Update (Dialect.Update): the model branch takes its names from ModelAssignments, so the same difference applies at Dialect.java:130.
- Delete (Dialect.Delete): the non-null-column branch uses each field's own column name, not the shared memo's answer at Dialect.java:161.
- BuildColumns (ModelValues.BuildColumns): the select list uses each field's own column name, not the shared memo's answer at DatabaseUtils.java:129.
- ToColumnValuesDuplicate (ModelValues.ToColumnValuesDuplicate): the updateOnDuplicate flag is each field's own, not the shared memo's answer at DatabaseUtils.java:108.
- WhereModel (QueryBuilder.Query.WhereModel): the condition columns are each field's own, not the shared memo's answer at Query.java:205.
- ComputeModelColumnMappings (DatabaseCache.MetadataCache.ComputeModelColumnMappings): the mapping keys are each field's own column name, not the shared memo's answer through `getColumnName` at DatabaseCache.java:46.
- Every terminal operation of `Query` assumes an opened wrapper. The source first calls `DatabaseWrapper.of()` (Query.java:547, 675, 920, 931, 947, 960, 973, 987, 998, and DatabaseCache.java:104 for the table name). That call throws SQL2O_IS_NULL, before `clean()`, when no wrapper or driver is set. The model instead takes the configuration it reads (`useSqlLimit`, the table prefix, the dialect) as plain values. The failure of `of()` itself is modelled only by DatabaseWrappers.Registry.Of.

## Findings

| source | as written | input that shows it | evidently intended | confidence | as-written member | corrected member |
|---|---|---|---|---|---|---|
| src/main/java/in/asvignesh/databasewrapper/utils/DatabaseUtils.java:175-177 | `methodToFieldName` removes every occurrence of "get" | the getter "getBudget" maps to "bud" | remove only the leading "get", giving "budget" | not executed | DatabaseCache.MethodToFieldNameDropsInnerGet | DatabaseCache.GetterToFieldNameRoundTrip |
| src/main/java/in/asvignesh/databasewrapper/core/DatabaseCache.java:63-74 | the column-name cache is keyed by simple class name and field name | fields "name" of com.example.profile.User (@Column "user_name") and com.example.account.User (@Column "login"): the second lookup returns "user_name" | each field's own column name | not executed | DatabaseCache.ColumnNameKeyCollision | DatabaseCache.FieldColumnCache.ColumnName |
| src/main/java/in/asvignesh/databasewrapper/core/Query.java:869-875 | `updateById(model, id)` binds the model's values and only the id, dropping earlier condition values | where("age", 3).updateById(model, 7) on a model with one non-null column: three '?' but two values | bind every condition value after the model's | not executed | QueryProperties.UpdateModelByIdCounterexample | QueryProperties.UpdateModelByIdCorrectedAligned |
