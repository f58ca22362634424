# active-records: query compilation and validation, modelled in Dafny

active-records is a small PHP data-access layer. It offers one CRUD interface
(`add`, `get`, `getOne`, `update`, `delete`) over three backends:

- `MySQLHandler` and its `SQLiteHandler` subclass compile each call into one
  parameterised SQL statement through `buildQuery`;
- `MongoDBHandler` rewrites each call's criteria and sort into one driver call;
- every handler inherits from `DataValidator`, which checks a record before
  `add` inserts it.

This project models those four classes and proves what they compute.

**The relational side** (`php.dfy`, `strings.dfy`, `bindings.dfy`,
`pattern_literals.dfy`, `sql_fragments.dfy`, `sql_handler.dfy`):

- The WHERE, SET and SQLite INSERT compilers (`pdo_where`, `pdo_set`,
  `pdo_insert`) are methods with loops. Each is proved equal to a
  specification function.
- Each compiler fills the named-parameter map passed by reference. A field's
  tag is its own name, or its name followed by a `rand()` number when the
  map already binds that name to a non-null value.
- The handler is a class with the default table and the last binding map as
  fields. The SQLite variant is the same class with `dialect == Sqlite`.
- Each public operation returns the statement it would hand to PDO, and
  leaves behind the binding map it would pass with it.

**The document side** (`mongo_handler.dfy`):

- `normalize_criteria` moves a set `id` to an ObjectId under `_id`, and turns
  pattern literals into regular expressions.
- `normalize_sort` rewrites ASC/DESC in any case to 1/-1.
- Each operation returns the driver call it would issue (a `Request`) on the
  collection it would choose.

**The validator** (`validator.dfy`):

- It is a class holding the mandatory-field list, the unique-record-field
  list and the error log.
- `validated` runs the associativity test, the mandatory-field test and the
  unique-record lookup, in that order.
- The lookup is the handler's own `getOne`. Here it is passed in as a
  `RecordFinder` built from the handler's lookup function. Inheritance
  becomes composition: each handler holds a `validator`.

**What is proved about the specification functions**
(`sort_orders.dfy`, `sql_fragment_facts.dfy`, `sql_handler_facts.dfy`,
`validator_facts.dfy`, `mongo_handler_facts.dfy`):

- Sort directions: which ones each backend accepts, that ASC/1 and DESC/-1
  correspond in both directions, and that normalising is idempotent.
- The shape and bindings of WHERE, SET and INSERT fragments, and how they
  reuse tags.
- The table check and binding-map reset of `buildQuery`.
- Where each public operation's table argument lands.
- When `add` inserts.
- What a validation accepts and what it logs.
- Key-by-key effect of the Mongo criteria rewrite.
- The relational LIKE and the Mongo regex agree on which values are patterns.

The model follows the code as written, including these behaviours:

- `getOne`, `update`, `delete` and `add` pass their table argument to a
  `buildQuery` slot that is not the table.
- The SQLite INSERT ends in `;;`.
- An UPDATE whose SET binds a field to null lets the WHERE value take over
  that tag.
- The Mongo lookup during `add` always uses the default collection.

PHP semantics are modelled explicitly, as PHP 8 defines them:

- truthiness, `empty()` and `isset()`;
- the `(string)` cast;
- numeric-string array keys;
- ordered arrays, where assignment overwrites in place or appends;
- `substr` with negative lengths, `trim` with a character list,
  `str_replace` and `strtolower`;
- `preg_match('/^ASC$/i')`, including `$` matching before a final newline.

`rand()` is a parameter `draws: nat -> nat`: the i-th field of a compiler
call uses `draws(i)`, and the WHERE of an UPDATE uses the draws after the
SET's. The database's answer is also a parameter: `rowFound` for SQL and
`docFound` for MongoDB.

## Model

| member | source | states |
|---|---|---|
| Php.NatToString | src/Handlers/MySQLHandler.php:116 | the number appended to a colliding tag is a non-empty run of decimal digits |
| Php.DecimalKey | src/DataValidator.php:52-53 | a string read as an integer key is that integer printed back, within the 64-bit range |
| Php.DigitsRoundTrip | src/DataValidator.php:52-53 | reading canonical decimal digits as a number and printing it gives the same digits |
| Php.KeyCastPrintsBack | src/DataValidator.php:52-53 | a field name used as an array key prints back unchanged, whether or not PHP turns it into an integer key |
| Php.Lookup | src/DataValidator.php:53 | reading `$a[$k]` finds nothing exactly when the key is absent, otherwise a value stored under that key |
| Php.Assign | src/DataValidator.php:53 | `$a[$k] = $v` keeps length and key order when the key exists, appends otherwise, and reads back `$v` |
| Php.AssignKeys | src/DataValidator.php:53 | assigning adds exactly the assigned key |
| Php.AssignLookup | src/DataValidator.php:53 | assigning changes what the assigned key reads and nothing else |
| Php.AssignUnique | src/DataValidator.php:53 | assigning never creates a duplicate key |
| Php.Unset | src/Handlers/MongoDBHandler.php:72 | `unset` removes the key and never lengthens the array |
| Php.UnsetLookup | src/Handlers/MongoDBHandler.php:72 | unsetting hides one key and changes what no other key reads |
| Php.UnsetUnique | src/Handlers/MongoDBHandler.php:72 | unsetting never creates a duplicate key |
| Strings.PrefixedIsJoin | src/Handlers/MySQLHandler.php:149 | dropping the first " AND " from the accumulated conditions gives them joined by " AND " |
| Strings.TerminatedIsJoin | src/Handlers/MySQLHandler.php:121 | dropping the trailing separator from the accumulated items gives them joined by it |
| Strings.Lower | src/Handlers/MySQLHandler.php:146 | `strtolower` keeps the length and lower-cases character by character |
| Strings.LowerHasNoUpper | src/Handlers/MySQLHandler.php:146 | the result has no upper-case letter, and lower-casing again changes nothing |
| Strings.Trim | src/Handlers/MySQLHandler.php:138 | neither end of a trimmed string is one of the listed characters |
| Strings.TrimStrips | src/Handlers/MySQLHandler.php:138 | trim removes exactly a leading and a trailing run of listed characters around the core |
| Strings.ReplaceDotPlusChars | src/Handlers/MySQLHandler.php:139 | every character of the result is '%' or a character of the input |
| Strings.ReplaceDotPlusComplete | src/Handlers/MySQLHandler.php:139 | no `.+` survives the replacement |
| Strings.ReplaceDotPlusIdentity | src/Handlers/MySQLHandler.php:139 | a string without `.+` is unchanged, so the replacement is idempotent |
| Strings.EscapeRoundTrip | src/Handlers/MySQLHandler.php:117 | doubled backticks always pair up and unescape to the original field name |
| PatternLiterals.Classify | src/Handlers/MySQLHandler.php:132-136 | only strings are pattern literals, and a case-insensitive one has at least two characters to drop |
| PatternLiterals.ClassifyMatchesTest | src/Handlers/MySQLHandler.php:133 | the classification accepts exactly the values the slash test accepts; case-insensitive exactly when the value does not end in '/' |
| Bindings.BindAll | src/Handlers/MySQLHandler.php:114-119 | one tag per field |
| Bindings.BindStep | src/Handlers/MySQLHandler.php:116-118 | each field's tag is chosen against the map as the earlier fields left it, then its value is stored under the tag |
| Bindings.BindPrefix | src/Handlers/MySQLHandler.php:114-119 | later fields never change the tags chosen for earlier ones |
| Bindings.TagAt | src/Handlers/MySQLHandler.php:116 | a tag is the bare field name exactly when the map has no non-null value under it; otherwise it is the name followed by the draw's digits |
| Bindings.BindKeys | src/Handlers/MySQLHandler.php:118 | the map keeps its old keys and gains exactly the tags |
| Bindings.BindValues | src/Handlers/MySQLHandler.php:118 | a tag reads the value of the last field that chose it; untouched keys keep their values |
| Bindings.BindValueAt | src/Handlers/MySQLHandler.php:118 | a field's tag reads that field's value when no later field chose the same tag |
| Bindings.BindKeepsOld | src/Handlers/MySQLHandler.php:118 | a key no field chose keeps its old value |
| Bindings.OwnTags | src/Handlers/MySQLHandler.php:116 | distinct, unbound field names are their own tags and are bound to their values |
| Bindings.BindOwnNames | src/Handlers/MySQLHandler.php:114-119 | distinct, unbound field names: tags are the names, the map gains exactly those names, and everything else is kept |
| SortOrders.SqlAccepts | src/Handlers/MySQLHandler.php:196-202 | the relational sort accepts exactly 'ASC', 'DESC', 1 and -1, maps 1 to ASC and -1 to DESC, and names the rejected value |
| SortOrders.MongoAccepts | src/Handlers/MongoDBHandler.php:95-101 | the document sort accepts exactly 1, -1 and strings matching /^asc$/i or /^desc$/i, mapping them to 1 and -1 |
| SortOrders.DirectionIdempotent | src/Handlers/MySQLHandler.php:194-203 | rewriting an accepted direction again changes nothing |
| SortOrders.DirectionsCorrespond | src/Handlers/MySQLHandler.php:187-191 | ASC == 1 and DESC == -1: a direction one backend accepts, the other accepts too, and converting there and back returns it |
| SortOrders.DirectionsDiffer | src/Handlers/MongoDBHandler.php:95-98 | lower-case words and a trailing newline pass only the document backend; numeric strings pass neither |
| SortOrders.NormalizedSortShape | src/Handlers/MySQLHandler.php:192-205 | keys and order are kept and every direction is rewritten; the sort fails exactly when some direction is rejected, and then with the first such direction |
| SortOrders.NormalizedSortRoundTrip | src/Handlers/MySQLHandler.php:187-191 | normalising is idempotent, and a sort normalised for one backend converts to the other and back unchanged |
| SqlFragments.WhereEntryCompile | src/Handlers/MySQLHandler.php:132-146 | the loop body gives the entry's condition and bound value as the WHERE specification defines them |
| SqlFragments.PdoWhere | src/Handlers/MySQLHandler.php:124-150 | the WHERE loop gives exactly the WHERE fragment and the binding map of the specification |
| SqlFragments.PdoSet | src/Handlers/MySQLHandler.php:111-122 | the SET loop gives exactly the SET fragment and the binding map of the specification |
| SqlFragments.PdoInsertSqlite | src/Handlers/SQLiteHandler.php:30-41 | the SQLite column/placeholder loop gives exactly the INSERT tail and the binding map of the specification |
| SqlFragmentFacts.WhereShape | src/Handlers/MySQLHandler.php:124-150 | empty criteria give "" and leave the map alone; otherwise " WHERE " and the conditions joined by " AND "; the map gains exactly the tags |
| SqlFragmentFacts.WhereEntryAt | src/Handlers/MySQLHandler.php:128-146 | the i-th entry's tag, condition (equality or LIKE) and bound value (unless a later entry reuses the tag) |
| SqlFragmentFacts.WhereFresh | src/Handlers/MySQLHandler.php:124-150 | into a reset map, distinct fields are tagged by name, each bound to its value or LIKE operand, and nothing else is bound |
| SqlFragmentFacts.LikeBodyShape | src/Handlers/MySQLHandler.php:135-146 | the LIKE operand neither starts nor ends with '/', '^' or '$', has no `.+`, and has no upper case when the pattern is case-insensitive |
| SqlFragmentFacts.WhereSingle | src/Handlers/MySQLHandler.php:128-149 | one unbound entry compiles to " WHERE " and its condition under its own name |
| SqlFragmentFacts.ReplaceExamples | src/Handlers/MySQLHandler.php:139 | `.+` becomes '%' in the middle and at the end of a pattern |
| SqlFragmentFacts.CaseInsensitiveExample | src/Handlers/MySQLHandler.php:132-146 | '/^a.+z$/i' is case-insensitive, binds "a%z" and compiles to (LOWER(name) LIKE :name) |
| SqlFragmentFacts.CaseSensitiveExample | src/Handlers/MySQLHandler.php:132-146 | '/AB.+/' is case-sensitive, binds "AB%" and compiles to (code LIKE :code) |
| SqlFragmentFacts.PlainSlashExample | src/Handlers/MySQLHandler.php:133-146 | '/usr' is not a pattern: it is compared for equality and bound unchanged |
| SqlFragmentFacts.SetItemReadBack | src/Handlers/MySQLHandler.php:117 | a SET item quotes its field so that it reads back as the field name |
| SqlFragmentFacts.SetFresh | src/Handlers/MySQLHandler.php:111-122 | into a reset map, distinct fields: SET lists them under their own names, binds each to its value, and binds nothing else |
| SqlFragmentFacts.SqliteInsertShape | src/Handlers/SQLiteHandler.php:33-40 | one column and one placeholder per field, in order; the i-th placeholder is the i-th tag, bound to its field's value unless reused; the map gains exactly the tags |
| SqlFragmentFacts.SqliteInsertEmpty | src/Handlers/SQLiteHandler.php:40 | empty data gives " () VALUES ();" and binds nothing |
| SqlFragmentFacts.SingleField | src/Handlers/SQLiteHandler.php:33-40 | one unbound field: the SET item and the SQLite column and placeholder all use its own name |
| SqlFragmentFacts.BacktickExample | src/Handlers/SQLiteHandler.php:36 | for a field named a`b, the SET fragment doubles the inner backtick while the SQLite INSERT column list keeps it single |
| SqlHandlers.TableFor | src/Handlers/MySQLHandler.php:154-158 | there is no table exactly when the argument is falsy and no default table is set |
| SqlHandlers.SqlHandler.constructor | src/Handlers/MySQLHandler.php:49-56 | no default table, an empty binding map and an empty validator |
| SqlHandlers.SqlHandler.SetTable | src/Handlers/MySQLHandler.php:76-79 | the default table is the given one |
| SqlHandlers.SqlHandler.BuildQuery | src/Handlers/MySQLHandler.php:152-185 | the statement and the new binding map are the builder's specification on the old state |
| SqlHandlers.SqlHandler.CompileStatement | src/Handlers/MySQLHandler.php:162-182 | the switch gives the statement of the requested type and refuses an unknown type |
| SqlHandlers.SqlHandler.SelectQuery | src/Handlers/MySQLHandler.php:164-169 | the SELECT case equals its specification |
| SqlHandlers.SqlHandler.InsertQuery | src/Handlers/MySQLHandler.php:170-172 | the INSERT case equals its specification for the handler's dialect |
| SqlHandlers.SqlHandler.UpdateQuery | src/Handlers/MySQLHandler.php:173-175 | the UPDATE case equals its specification: SET, then WHERE into the same map |
| SqlHandlers.SqlHandler.DeleteQuery | src/Handlers/MySQLHandler.php:176-178 | the DELETE case equals its specification, with criteria from the `what` slot |
| SqlHandlers.SqlHandler.NormalizeSort | src/Handlers/MySQLHandler.php:192-205 | the in-place rewrite loop gives the normalised sort or the first rejection |
| SqlHandlers.SqlHandler.Add | src/Handlers/MySQLHandler.php:207-215 | the result, the binding map and the error log are those of validating and then building the INSERT |
| SqlHandlers.SqlHandler.Get | src/Handlers/MySQLHandler.php:217-221 | a rejected sort fails first and leaves the map; otherwise the SELECT with the normalised sort |
| SqlHandlers.SqlHandler.GetOne | src/Handlers/MySQLHandler.php:223-227 | the SELECT with the table argument in the sort slot |
| SqlHandlers.SqlHandler.Update | src/Handlers/MySQLHandler.php:229-233 | the UPDATE with the table argument in the sort slot |
| SqlHandlers.SqlHandler.Delete | src/Handlers/MySQLHandler.php:235-239 | the DELETE with the criteria in the `what` slot and the table argument in the `where` slot |
| SqlHandlerFacts.BuildTableCheck | src/Handlers/MySQLHandler.php:154-160 | LogicException exactly without a table, and then the map is untouched; otherwise the outcome ignores the old map |
| SqlHandlerFacts.UnknownKind | src/Handlers/MySQLHandler.php:179-181 | an unknown query type is refused with InvalidArgumentException naming it |
| SqlHandlerFacts.OrderByFirstEntry | src/Handlers/MySQLHandler.php:166 | ORDER BY comes from the first sort entry alone, is absent for an empty sort, and a truthy scalar raises TypeError |
| SqlHandlerFacts.LimitWhenTruthy | src/Handlers/MySQLHandler.php:167 | a LIMIT clause appears exactly for a truthy limit |
| SqlHandlerFacts.SelectAll | src/Handlers/MySQLHandler.php:164-169 | no projection, criteria, sort or limit gives SELECT * FROM `t`; with nothing bound |
| SqlHandlerFacts.WhereOne | src/Handlers/MySQLHandler.php:128-149 | one entry's tag is chosen against the map it is compiled into |
| SqlHandlerFacts.UpdateSameField | src/Handlers/MySQLHandler.php:173-175 | a field in both SET and WHERE gets a suffixed WHERE tag when its SET value is non-null, and shares one tag (WHERE's value wins) when it is null |
| SqlHandlerFacts.UpdateParts | src/Handlers/MySQLHandler.php:174 | UPDATE is the SET fragment then the WHERE fragment compiled into SET's bindings with the remaining draws |
| SqlHandlerFacts.InsertEndings | src/Handlers/MySQLHandler.php:171 | the SQLite INSERT ends in ");;", and both dialects bind the same values |
| SqlHandlerFacts.GetOneTableArgument | src/Handlers/MySQLHandler.php:225 | getOne's table argument never picks the table: a falsy one changes nothing, and a truthy one makes the SELECT fail |
| SqlHandlerFacts.TableArgumentIgnored | src/Handlers/MySQLHandler.php:212-237 | update, delete and add put their table argument in a slot their statement type never reads |
| SqlHandlerFacts.AddIssuesInsert | src/Handlers/MySQLHandler.php:207-215 | add builds an INSERT exactly when validation accepts and a default table is set; a rejection or a lookup error yields no INSERT |
| SqlHandlerFacts.AddWithoutTable | src/Handlers/MySQLHandler.php:207-212 | without a default table, add never inserts, and fails with LogicException once validation reaches the lookup |
| SqlHandlerFacts.AddBindsFields | src/Handlers/MySQLHandler.php:212-213 | a successful add binds every field of the record under its own name |
| SqlHandlerFacts.InsertBindsFields | src/Handlers/MySQLHandler.php:170-172 | both INSERT forms bind every distinct field under its own name |
| Validators.DataValidator.constructor | src/DataValidator.php:11-13 | empty field lists and an empty error log |
| Validators.DataValidator.SetMandatoryFields | src/DataValidator.php:15-21 | an array replaces the list; anything else raises InvalidArgumentException and changes nothing |
| Validators.DataValidator.SetUniqueRecordFields | src/DataValidator.php:23-29 | an array replaces the list; anything else raises InvalidArgumentException and changes nothing |
| Validators.DataValidator.IsAssocArray | src/DataValidator.php:69-92 | passes exactly when no argument fails, and logs only the first failure |
| Validators.DataValidator.TestMandatoryFields | src/DataValidator.php:31-45 | passes exactly when no mandatory field is missing, and otherwise logs the missing ones |
| Validators.DataValidator.TestRecordExist | src/DataValidator.php:47-61 | asks the lookup about the criteria built from the unique fields, and logs 1003 exactly when it finds a record |
| Validators.DataValidator.Validated | src/DataValidator.php:94-105 | result and log are those of the whole validation on the old log |
| ValidatorFacts.AssocFailureFirst | src/DataValidator.php:69-92 | all arguments pass exactly when each is an array with a string key; otherwise the first failing one is reported, as 1000 when empty and 1001 otherwise |
| ValidatorFacts.MissedFieldsMembers | src/DataValidator.php:31-38 | a field is reported missing exactly when it is listed as mandatory and the data does not set it |
| ValidatorFacts.RecordCriteriaUnique | src/DataValidator.php:47-54 | the lookup criteria never hold a key twice |
| ValidatorFacts.RecordCriteriaEntries | src/DataValidator.php:47-54 | the criteria hold a key exactly when a unique field names it and the data sets it, and then with the data's value |
| ValidatorFacts.ValidationAccepts | src/DataValidator.php:94-105 | accepts exactly an associative array that sets every mandatory field and, when unique fields exist, for which the lookup finds nothing; fails exactly when the lookup fails |
| ValidatorFacts.ValidationFinderLast | src/DataValidator.php:94-105 | the lookup only matters once the first two tests pass and unique fields are configured |
| ValidatorFacts.ValidationLogGrows | src/DataValidator.php:94-105 | the log only grows, and only by the four validation codes |
| MongoHandlers.CollectionFor | src/Handlers/MongoDBHandler.php:119 | the only failure in choosing a collection is a call on null |
| MongoHandlers.MongoHandler.constructor | src/Handlers/MongoDBHandler.php:22-45 | records whether a database was selected; no default collection and an empty validator |
| MongoHandlers.MongoHandler.SetTable | src/Handlers/MongoDBHandler.php:52-58 | with a database, the collection is set; without one, LogicException and no change |
| MongoHandlers.MongoHandler.NormalizeCriteria | src/Handlers/MongoDBHandler.php:66-84 | the id move and the in-place regex loop give exactly the normalised criteria |
| MongoHandlers.MongoHandler.RewriteDirection | src/Handlers/MongoDBHandler.php:95-98 | the two rewrites of one direction, asc first |
| MongoHandlers.MongoHandler.NormalizeSort | src/Handlers/MongoDBHandler.php:91-104 | the in-place rewrite loop gives the normalised sort or the first rejection |
| MongoHandlers.MongoHandler.Get | src/Handlers/MongoDBHandler.php:117-124 | the find request on the chosen collection, or its error |
| MongoHandlers.MongoHandler.GetOne | src/Handlers/MongoDBHandler.php:126-130 | the findOne request on the chosen collection, or its error |
| MongoHandlers.MongoHandler.Update | src/Handlers/MongoDBHandler.php:132-136 | the update-all request with the data under $set, or the error |
| MongoHandlers.MongoHandler.Delete | src/Handlers/MongoDBHandler.php:138-142 | the remove request on the chosen collection, or its error |
| MongoHandlers.MongoHandler.Add | src/Handlers/MongoDBHandler.php:106-115 | the result and the error log are those of validating and then inserting |
| MongoHandlerFacts.NormalizedCriteriaLookup | src/Handlers/MongoDBHandler.php:66-84 | key by key: a set id is gone, _id reads an ObjectId of it, and every other key reads its value, as a regex when it is a pattern literal |
| MongoHandlerFacts.NormalizedCriteriaUnique | src/Handlers/MongoDBHandler.php:66-84 | normalising never creates a duplicate key |
| MongoHandlerFacts.RegexIffLike | src/Handlers/MongoDBHandler.php:78 | a value becomes a regex exactly when the relational WHERE uses LIKE for it, and the regex keeps the literal whole |
| MongoHandlerFacts.GetRequestShape | src/Handlers/MongoDBHandler.php:117-124 | the find succeeds exactly when every direction is accepted; it sorts only for a non-empty sort (keys kept, values 1/-1) and limits only for a truthy limit |
| MongoHandlerFacts.CollectionChoice | src/Handlers/MongoDBHandler.php:126-142 | a truthy table argument names the collection; with neither it nor a default, every operation fails calling on null |
| MongoHandlerFacts.AddInserts | src/Handlers/MongoDBHandler.php:106-115 | add inserts the record unchanged exactly when validation accepts and a collection is chosen |
| MongoHandlerFacts.AddLookupUsesDefault | src/Handlers/MongoDBHandler.php:106-112 | without a default collection, add fails once validation reaches the lookup, even when a table argument names a collection |

## Left out

- Statement execution, PDO, the MongoDB driver and every database round trip are not modelled: `exec`, `prepare`/`execute`, `fetch`/`fetchAll`, `find`/`findOne`/`insert`/`update`/`remove`. Each operation returns the statement or request it would issue. Whether a record exists is a parameter (`rowFound`, `docFound`).
- `setHandlerAttr` and the fetch mode are not modelled: they only configure `exec`.
- The constructors' connection code (DSN strings, `new PDO`, `MongoClient`, `selectDB`, `trigger_error`) is left out. The Mongo handler records only whether a database was selected.
- SqlHandlers.SqlHandler.Add: returns the INSERT statement instead of `lastInsertId()`, which comes from the database.
- MongoHandlers.MongoHandler.Add: returns the insert request instead of the `_id` string the driver writes into the record.
- Driver-side failures are left out: `MongoId` rejecting a malformed id, `selectCollection` rejecting a name, and PDO errors.
- `rand()` is a parameter: nothing is assumed about the numbers it returns, so tag collisions with a drawn number are not excluded.
- The `print_r` text in error entries is not rendered. The entry keeps the value it would print, including the stray positional element of the 1003 entry.
- PHP warnings and deprecations (`foreach` over a scalar, `substr` on null) are not modelled: execution goes on as PHP's does, and the warning itself is absent.
- SqlHandlers.OrderBy: a truthy non-array sort raises `TypeError`, as `key()`/`reset()` do in PHP 8. Under PHP 5 and 7 they warn and return NULL, so `getOne($c, [], 'users')` would build `ORDER BY  ` instead. SqlHandlerFacts.OrderByFirstEntry and SqlHandlerFacts.GetOneTableArgument state the PHP 8 outcome. The Mongo handler's driver classes (`MongoClient`, `MongoId`, `MongoRegex`) belong to PHP 5's legacy driver; the model abstracts them and applies PHP 8 semantics throughout.
- SqlHandlers.SqlHandler.Get: criteria, projection and sort are typed as arrays here and in SqlHandlers.SqlHandler.GetOne, SqlHandlers.SqlHandler.Update, SqlHandlers.SqlHandler.Delete and the Mongo handler's Get, GetOne, Update and Delete. A scalar passed there, which PHP would iterate with a warning, is not modelled. `SqlHandlers.SqlHandler.BuildQuery` itself takes its WHERE and sort arguments as any PHP value.
- Validators.IsAssoc: input arrays are taken as given. A string key that PHP would have cast to an integer (such as "5") is not excluded from arrays passed in, and `IsAssoc` counts it as a string key. Keys the model derives from field names, for lookups and for the criteria it builds, go through the numeric-key cast.
- Floats, objects and nested arrays as values are left out: values are null, booleans, integers and strings.
- Validators.DataValidator.Validated: returns a boolean where PHP returns the integer of `$bValue & ...`. The two are equal as truth values.
- Validators.DataValidator.GetError: a plain read of the log with no contract of its own.
- Inheritance from `DataValidator` is modelled as composition: each handler holds a `validator` object.
- `HandlerInterface` and the `ActiveRecords` facade are not part of this model.
