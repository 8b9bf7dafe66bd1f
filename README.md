# Organization service, membership, lookup enums, filter field types and OpenAPI envelope

This project models the core of a Spring back end for organizations and their members, in Dafny:

- **Organization service.** `OrganizationService` works on four tables: each organization's parent, the users, the title
  categories keyed by (code, name), and the membership rows. It re-parents and un-parents organizations
  (`assignOrganizations`, `removeOrganizations`). It adds members with the default STAFF title (`assignUsers`),
  deactivates them (`removeUsers`) and changes a member's title (`changeTitle`). Its paged `findAll` groups the
  organizations that have a parent by that parent's id and builds one tree per root on the page.
- **Membership entity.** `UserOrganization` is the mutable row. It is active by default, and the table allows one row per
  (user, organization).
- **Lookup enums.** `TaskAction`, `ProjectType` and `OrganizationLevel` each look a constant up by its value. The two
  string values match ignoring case; the integer value matches exactly.
- **Filter field types.** `FieldType.parse` turns the text of a filter value into a typed value, one decoder per column type.
- **OpenAPI envelope.** `OpenApiConfiguration` documents every handler that carries `@ApiOkResponse` with a
  `{message, result, code, data}` envelope whose `data` has one of four shapes. It also removes `_links` from every
  component schema.

## How the model is built

- **Service and tables.** The service is the class `OrganizationServices.OrganizationService`. Its fields are the tables,
  and the membership table is a sequence of `UserOrganization` objects. Each service method changes those fields in
  place, as the Java does: parents are set child by child, new entities are built and appended, the title of one entity
  is updated, and the repository's bulk UPDATE clears the `active` flag of every matching entity in one step.
  - Each method is proved against the function of the same name in `OrganizationTables`. That function gives the outcome
    (done, one of the not-found or illegal-state errors, or the database refusing a row) and the tables afterwards.
  - `OrganizationProperties` proves what holds across calls: idempotence, the unique constraint, "nothing else
    changes", and the two consequences of the code described below.
- **Nulls and exceptions.** Java `null` is `Option.None`. Thrown exceptions become `Outcome` or `Result` values. A
  failed operation leaves every table as it was, because each service method runs in one transaction.
- **Linked maps.** A `LinkedHashMap` (the swagger property, response and media-type maps) is a sequence of entries in
  insertion order (`LinkedMaps`).
- **Case-insensitive matching.** `String.equalsIgnoreCase` follows `String.regionMatches`: characters match when
  they are equal, when their upper cases are equal, or when the lower cases of their upper cases are equal. This covers
  ASCII letters and the four non-ASCII characters that fold onto them (`JavaText`).
- **Library parsers.** `FieldType` calls library parsers whose grammar is not part of this model: `UUID.fromString`,
  `Instant.parse`, the date pattern parser and `Double.valueOf`. The model takes them as function parameters
  (`FieldTypes.Libraries`).

Two consequences of the code, proved as lemmas:

- **No cycle check.** `assignOrganizations` never checks for cycles. Putting an organization under itself, or under one
  of its own descendants, makes the hierarchy no longer a forest (`AssignToItselfBreaksForest`,
  `AssignOrganizationsCanCreateCycle`). `removeOrganizations`, by contrast, keeps a forest a forest.
- **Only active rows are skipped.** `assignUsers` skips only users with an ACTIVE row. A user whose row for the
  organization is inactive, for example after `removeUsers`, gets a second row for the same pair, and the table's
  unique constraint refuses it. So a user, once removed, cannot be assigned to that organization again
  (`ReassignInactiveClashes`, `RemoveThenAssignClashes`). The model shows this outcome as `DataIntegrityViolation`,
  with the tables unchanged.

## Model

| member | source | states |
|---|---|---|
| `OrganizationServices.OrganizationService.AssignOrganizations` | src/main/java/com/tnh/baseware/core/services/adu/imp/OrganizationService.java:85-103 | The loop over the found children leaves the tables exactly as `OrganizationTables.AssignOrganizations` gives them, with the same outcome. Memberships are untouched and the object invariant is kept. |
| `OrganizationServices.OrganizationService.RemoveOrganizations` | src/main/java/com/tnh/baseware/core/services/adu/imp/OrganizationService.java:107-125 | Likewise for `OrganizationTables.RemoveOrganizations`: the outcome and the new tables agree with it. |
| `OrganizationServices.OrganizationService.AssignUsers` | src/main/java/com/tnh/baseware/core/services/adu/imp/OrganizationService.java:129-168 | The outcome and the new tables agree with `OrganizationTables.AssignUsers`. The unique constraint and distinct entities are kept. |
| `OrganizationServices.OrganizationService.Build` | src/main/java/com/tnh/baseware/core/services/adu/imp/OrganizationService.java:154-163 | Builds one fresh entity per found user not already active, in order; their rows are exactly `NewMemberships`. |
| `OrganizationServices.OrganizationService.SaveAll` | src/main/java/com/tnh/baseware/core/services/adu/imp/OrganizationService.java:165-167 | Appends the new entities. The membership table becomes the old rows followed by the new ones, and nothing else changes. |
| `OrganizationServices.OrganizationService.DeactivateUsers` | src/main/java/com/tnh/baseware/core/services/adu/imp/OrganizationService.java:185-188 | The bulk update, all matching entities at once. The rows become `Deactivated(old rows)`, the returned count is `DeactivatedCount(old rows)`, and no entity is added or removed. |
| `OrganizationServices.OrganizationService.RemoveUsers` | src/main/java/com/tnh/baseware/core/services/adu/imp/OrganizationService.java:172-195 | The outcome and the new tables agree with `OrganizationTables.RemoveUsers`. The unique constraint is kept. |
| `OrganizationServices.OrganizationService.ChangeTitle` | src/main/java/com/tnh/baseware/core/services/adu/imp/OrganizationService.java:199-226 | The outcome and the new tables agree with `OrganizationTables.ChangeTitle`. The unique constraint is kept. |
| `OrganizationTables.FindAllById` | src/main/java/com/tnh/baseware/core/services/adu/imp/OrganizationService.java:93 | Returns exactly the requested ids that are stored, each once. |
| `OrganizationTables.Reparented` | src/main/java/com/tnh/baseware/core/services/adu/imp/OrganizationService.java:98-100 | Every listed child gets the new parent; every other organization keeps its parent; the same organizations exist. |
| `OrganizationTables.Unparented` | src/main/java/com/tnh/baseware/core/services/adu/imp/OrganizationService.java:120-122 | A listed child whose parent is the target loses its parent; every other organization keeps its parent. |
| `OrganizationTables.AssignOrganizations` | src/main/java/com/tnh/baseware/core/services/adu/imp/OrganizationService.java:85-103 | A null or empty list changes nothing, without looking up the parent. It is not found exactly when the list is non-empty and the parent is unknown. On success each found child is under the parent and every other organization is unchanged. Only the hierarchy changes. |
| `OrganizationTables.RemoveOrganizations` | src/main/java/com/tnh/baseware/core/services/adu/imp/OrganizationService.java:107-125 | The same checks, in the same order. On success only the found children under the target become roots. Only the hierarchy changes. |
| `OrganizationTables.ActiveUserIds` | src/main/java/com/tnh/baseware/core/services/adu/imp/OrganizationService.java:142-144 | A user is in the set exactly when some row for that user and organization is active. |
| `OrganizationTables.NewMemberships` | src/main/java/com/tnh/baseware/core/services/adu/imp/OrganizationService.java:154-163 | Every new row is active, has the given title, no position, and the organization. A user gets a row exactly when found and not already active. |
| `OrganizationTables.AssignUsers` | src/main/java/com/tnh/baseware/core/services/adu/imp/OrganizationService.java:129-168 | A blank list changes nothing. Not found exactly when the organization is unknown. Illegal state exactly when some requested user exists and STAFF is missing, even if every user is already active. The database refuses the save exactly when one of the rows to create has the (user, organization) pair of a stored row. A successful call with STAFF present appends exactly those rows. Any failure leaves the tables unchanged. Old rows stay a prefix of the table, and only memberships change. |
| `OrganizationTables.DeactivateRow` | src/main/java/com/tnh/baseware/core/services/adu/imp/OrganizationService.java:185-188 | Only `active` can change, and it becomes false exactly for an active row of one of the users in the organization. |
| `OrganizationTables.Deactivated` | src/main/java/com/tnh/baseware/core/services/adu/imp/OrganizationService.java:185-188 | The same rows in the same order, each passed through `DeactivateRow`. |
| `OrganizationTables.DeactivatedCount` | src/main/java/com/tnh/baseware/core/services/adu/imp/OrganizationService.java:185-190 | At most the number of rows. It is zero exactly when no row is deactivated. |
| `OrganizationTables.RemoveUsers` | src/main/java/com/tnh/baseware/core/services/adu/imp/OrganizationService.java:172-195 | Blank changes nothing. The organization missing is not found. Not-in-organization exactly when no row would change. Failures keep the tables. Success is the bulk update, and only memberships change. |
| `OrganizationTables.FindMembership` | src/main/java/com/tnh/baseware/core/services/adu/imp/OrganizationService.java:201-207 | Absent exactly when no row is for the pair; otherwise the position of a row for the pair. |
| `OrganizationTables.ChangeTitle` | src/main/java/com/tnh/baseware/core/services/adu/imp/OrganizationService.java:199-226 | The three errors, checked in the order membership, active, title. A missing title category gives not found. Failure keeps the tables, no row is added or removed, and only memberships change. |
| `OrganizationProperties.AssignOrganizationsIdempotent` | src/main/java/com/tnh/baseware/core/services/adu/imp/OrganizationService.java:98-102 | A second identical `assignOrganizations` gives the same outcome and changes nothing. |
| `OrganizationProperties.SelfParentNeverReachesRoot` | src/main/java/com/tnh/baseware/core/services/adu/imp/OrganizationService.java:98-100 | Following parent links from an organization that is its own parent never reaches a root. |
| `OrganizationProperties.AssignToItselfBreaksForest` | src/main/java/com/tnh/baseware/core/services/adu/imp/OrganizationService.java:98-100 | `assignOrganizations(id, [id])` makes `id` its own parent, so the hierarchy is no forest. |
| `OrganizationProperties.AssignOrganizationsCanCreateCycle` | src/main/java/com/tnh/baseware/core/services/adu/imp/OrganizationService.java:98-100 | A two-organization forest where 2 is under 1: `assignOrganizations(2, [1])` succeeds and leaves a cycle. |
| `OrganizationProperties.ReachesRootAfterCut` | src/main/java/com/tnh/baseware/core/services/adu/imp/OrganizationService.java:120-122 | Cutting parent links keeps every way to a root. |
| `OrganizationProperties.RemoveOrganizationsKeepsForest` | src/main/java/com/tnh/baseware/core/services/adu/imp/OrganizationService.java:107-125 | `removeOrganizations` keeps a forest a forest. |
| `OrganizationProperties.RemoveOrganizationsKeepsOtherParents` | src/main/java/com/tnh/baseware/core/services/adu/imp/OrganizationService.java:120-122 | An organization under another parent, or a root, keeps its parent. |
| `OrganizationProperties.UniquePairsOneActive` | src/main/java/com/tnh/baseware/core/entities/user/UserOrganization.java:13-18 | Under the unique constraint a user has at most one active row per organization. |
| `OrganizationProperties.NewMembershipsDistinct` | src/main/java/com/tnh/baseware/core/services/adu/imp/OrganizationService.java:154-163 | Distinct found users give new rows with distinct users, so each user gets exactly one row. |
| `OrganizationProperties.AssignUsersKeepsUniquePairs` | src/main/java/com/tnh/baseware/core/services/adu/imp/OrganizationService.java:165-167 | The unique constraint holds after every `assignUsers`. |
| `OrganizationProperties.UniquePairsAppend` | src/main/java/com/tnh/baseware/core/services/adu/imp/OrganizationService.java:165-167 | Saving rows for distinct users that clash with no stored row keeps the unique constraint. |
| `OrganizationProperties.ActiveUserIdsAppend` | src/main/java/com/tnh/baseware/core/services/adu/imp/OrganizationService.java:142-144 | The active members over two tables together are those of either. |
| `OrganizationProperties.AssignUsersMakesMembers` | src/main/java/com/tnh/baseware/core/services/adu/imp/OrganizationService.java:142-167 | After a successful call every requested user that exists is an active member. |
| `OrganizationProperties.AssignUsersNewRows` | src/main/java/com/tnh/baseware/core/services/adu/imp/OrganizationService.java:154-163 | Every added row is for a requested, existing user who was not already active, and is active with the STAFF title and no position. |
| `OrganizationProperties.NoExistingAllNewMemberships` | src/main/java/com/tnh/baseware/core/services/adu/imp/OrganizationService.java:154-163 | When no found user is already active, one row is built per found user. |
| `OrganizationProperties.AssignUsersNewcomersSucceed` | src/main/java/com/tnh/baseware/core/services/adu/imp/OrganizationService.java:134-167 | For users never in the organization, with the organization and STAFF present, the call succeeds and adds one row per requested user that exists. |
| `OrganizationProperties.AllExistingNoNewMemberships` | src/main/java/com/tnh/baseware/core/services/adu/imp/OrganizationService.java:155 | When every found user is already active, no row is built. |
| `OrganizationProperties.AssignUsersIdempotent` | src/main/java/com/tnh/baseware/core/services/adu/imp/OrganizationService.java:142-167 | Repeating a successful `assignUsers` succeeds and adds nothing. |
| `OrganizationProperties.ReassignInactiveClashes` | src/main/java/com/tnh/baseware/core/services/adu/imp/OrganizationService.java:142-144 | A user whose row for the organization is inactive gets a second row, which the unique constraint refuses. |
| `OrganizationProperties.RemoveUsersDeactivatesAll` | src/main/java/com/tnh/baseware/core/services/adu/imp/OrganizationService.java:185-188 | After a successful `removeUsers` none of the given users is active in the organization. |
| `OrganizationProperties.RemoveUsersKeepsRows` | src/main/java/com/tnh/baseware/core/services/adu/imp/OrganizationService.java:172-195 | `removeUsers` deletes no row, keeps the unique constraint, and changes only the `active` flag of the matching active rows. |
| `OrganizationProperties.RemoveThenAssignClashes` | src/main/java/com/tnh/baseware/core/services/adu/imp/OrganizationService.java:142-144 | An active member removed and then assigned again hits the unique constraint. |
| `OrganizationProperties.ChangeTitleAt` | src/main/java/com/tnh/baseware/core/services/adu/imp/OrganizationService.java:209-225 | On the row of the pair: inactive (null included) is an illegal state, an unknown title is not found, and otherwise only that row's title changes. |
| `OrganizationProperties.ChangeTitleKeepsUniquePairs` | src/main/java/com/tnh/baseware/core/services/adu/imp/OrganizationService.java:224-225 | `changeTitle` keeps the unique constraint. |
| `OrganizationProperties.NewMembershipsSnoc` | src/main/java/com/tnh/baseware/core/services/adu/imp/OrganizationService.java:154-163 | The mapped stream, read one user at a time from the front to the back. |
| `OrganizationPaging.ChildrenOf` | src/main/java/com/tnh/baseware/core/services/adu/imp/OrganizationService.java:72-74 | The nodes directly under a parent, in order: a node is in it exactly when its parent is that one. |
| `OrganizationPaging.GroupByParent` | src/main/java/com/tnh/baseware/core/services/adu/imp/OrganizationService.java:72-74 | Every bucket is non-empty. |
| `OrganizationPaging.ChildrenOfAppend` | src/main/java/com/tnh/baseware/core/services/adu/imp/OrganizationService.java:72-74 | Appending a node extends only the bucket of its parent. |
| `OrganizationPaging.GroupByParentBuckets` | src/main/java/com/tnh/baseware/core/services/adu/imp/OrganizationService.java:72-74 | A key exists exactly for the parents some node names, and its bucket is `ChildrenOf` that parent, in the original order. |
| `OrganizationPaging.GroupByParentKeysStep` | src/main/java/com/tnh/baseware/core/services/adu/imp/OrganizationService.java:72-74 | Grouping one more node adds its parent, if any, to the keys, and no other key. |
| `OrganizationPaging.GroupByParentListsStep` | src/main/java/com/tnh/baseware/core/services/adu/imp/OrganizationService.java:72-74 | Grouping one more node keeps every bucket equal to `ChildrenOf` its parent. |
| `OrganizationPaging.GroupByParentListAt` | src/main/java/com/tnh/baseware/core/services/adu/imp/OrganizationService.java:72-74 | Grouping one more node appends it to its parent's bucket and leaves the other buckets as they were. |
| `OrganizationPaging.EachNodeInOneBucket` | src/main/java/com/tnh/baseware/core/services/adu/imp/OrganizationService.java:72-74 | A node with a parent lies in the bucket of that parent and in no other. A root lies in none. |
| `OrganizationPaging.FindAllPaged` | src/main/java/com/tnh/baseware/core/services/adu/imp/OrganizationService.java:61-81 | One tree per root candidate, in order, each built from the grouping of all nodes. The total is the root query's total, and the request is passed through. |
| `UserOrganizations.UserOrganization.Build` | src/main/java/com/tnh/baseware/core/entities/user/UserOrganization.java:29-42 | A built row has the given user, organization, title and position, and is active by default. |
| `UserOrganizations.UserOrganization.SetTitle` | src/main/java/com/tnh/baseware/core/entities/user/UserOrganization.java:35-36 | Only the title changes. |
| `UserOrganizations.Views` | src/main/java/com/tnh/baseware/core/entities/user/UserOrganization.java:29-42 | The rows of a sequence of entities, position by position. |
| `UserOrganizations.ViewsAppend` | src/main/java/com/tnh/baseware/core/entities/user/UserOrganization.java:29-42 | The rows of two sequences of entities are the rows of each, one after the other. |
| `EnumLookup.FirstMatchIndex` | src/main/java/com/tnh/baseware/core/enums/task/TaskAction.java:24-28 | No earlier constant matches, and the one found does. |
| `EnumLookup.FirstMatch` | src/main/java/com/tnh/baseware/core/enums/task/TaskAction.java:23-30 | None exactly when no constant matches; otherwise a matching constant of the table. |
| `EnumLookup.FirstMatchUnique` | src/main/java/com/tnh/baseware/core/enums/task/TaskAction.java:24-28 | With a single matching constant, the scan finds that one. |
| `TaskActions.ValuesComplete` | src/main/java/com/tnh/baseware/core/enums/task/TaskAction.java:14-17 | `values()` lists every constant. |
| `TaskActions.FromValue` | src/main/java/com/tnh/baseware/core/enums/task/TaskAction.java:23-30 | The result matches the argument ignoring case. Error exactly when no constant matches, with the message "Unknown TaskAction value: " and the argument. |
| `TaskActions.ValuesDistinctIgnoringCase` | src/main/java/com/tnh/baseware/core/enums/task/TaskAction.java:14-17 | No string matches two different constants, so the scan order does not matter. |
| `TaskActions.FromValueExact` | src/main/java/com/tnh/baseware/core/enums/task/TaskAction.java:23-30 | `fromValue` returns a constant exactly when the argument matches its value ignoring case. |
| `TaskActions.FromValueOfValue` | src/main/java/com/tnh/baseware/core/enums/task/TaskAction.java:14-28 | Each constant's own value gives it back. |
| `TaskActions.FromValueOfName` | src/main/java/com/tnh/baseware/core/enums/task/TaskAction.java:14-25 | Each `name` is the lower-cased `value`, and `fromValue(name)` gives the constant back. |
| `TaskActions.FromValueNull` | src/main/java/com/tnh/baseware/core/enums/task/TaskAction.java:29 | A null argument fails with "Unknown TaskAction value: null". |
| `ProjectTypes.ValuesComplete` | src/main/java/com/tnh/baseware/core/enums/project/ProjectType.java:15-16 | `values()` lists both constants. |
| `ProjectTypes.FromValue` | src/main/java/com/tnh/baseware/core/enums/project/ProjectType.java:22-29 | The result matches ignoring case. Error exactly when nothing matches, with the message "Unknown ProjectType value: " and the argument. |
| `ProjectTypes.ValuesDistinctIgnoringCase` | src/main/java/com/tnh/baseware/core/enums/project/ProjectType.java:15-16 | No string matches both constants. |
| `ProjectTypes.FromValueExact` | src/main/java/com/tnh/baseware/core/enums/project/ProjectType.java:22-29 | `fromValue` returns a constant exactly when the argument matches its value ignoring case. |
| `ProjectTypes.FromValueOfValue` | src/main/java/com/tnh/baseware/core/enums/project/ProjectType.java:15-27 | Each constant's own value gives it back. |
| `ProjectTypes.FromValueOfName` | src/main/java/com/tnh/baseware/core/enums/project/ProjectType.java:15-24 | Each `name` is the lower-cased `value`, and looking it up gives the constant back. |
| `ProjectTypes.FromValueNull` | src/main/java/com/tnh/baseware/core/enums/project/ProjectType.java:28 | A null argument fails with "Unknown ProjectType value: null". |
| `OrganizationLevels.ValuesComplete` | src/main/java/com/tnh/baseware/core/enums/OrganizationLevel.java:14-17 | `values()` lists every level. |
| `OrganizationLevels.FromValue` | src/main/java/com/tnh/baseware/core/enums/OrganizationLevel.java:23-30 | The result's value equals the argument. Error exactly for null or an integer outside 1..4, with the message "Unknown OrganizationLevel value: " and the argument's decimal form. |
| `OrganizationLevels.FromValueTable` | src/main/java/com/tnh/baseware/core/enums/OrganizationLevel.java:14-28 | 1, 2, 3 and 4 give PROVINCE, COMMUNE, DEPARTMENT and COMPANY. |
| `OrganizationLevels.ValuesIncreasing` | src/main/java/com/tnh/baseware/core/enums/OrganizationLevel.java:14-17 | The values strictly increase in declaration order. |
| `OrganizationLevels.FromValueOfValue` | src/main/java/com/tnh/baseware/core/enums/OrganizationLevel.java:23-28 | Each level's own value gives it back. |
| `OrganizationLevels.FromValueNull` | src/main/java/com/tnh/baseware/core/enums/OrganizationLevel.java:25-29 | A null argument fails with "Unknown OrganizationLevel value: null". |
| `JavaText.ToUpperCase` | src/main/java/com/tnh/baseware/core/enums/task/TaskAction.java:25 | The upper case of ASCII lower-case letters; other characters, except two specials, map to themselves. |
| `JavaText.ToLowerCase` | src/main/java/com/tnh/baseware/core/enums/task/TaskAction.java:25 | The lower case of ASCII upper-case letters; other characters, except two specials, map to themselves. |
| `JavaText.LowerCase` | src/main/java/com/tnh/baseware/core/enums/task/TaskAction.java:14-17 | Same length, each character lower-cased. |
| `JavaText.CharEqualsIgnoreCaseAscii` | src/main/java/com/tnh/baseware/core/enums/task/TaskAction.java:25 | Between ASCII characters, a non-letter matches only itself and a letter matches only its two cases. |
| `JavaText.EqualsIgnoreCaseReflexive` | src/main/java/com/tnh/baseware/core/enums/task/TaskAction.java:25 | Every string matches itself. |
| `JavaText.EqualsIgnoreCaseLength` | src/main/java/com/tnh/baseware/core/enums/task/TaskAction.java:25 | Strings of different lengths never match. |
| `JavaText.EqualsIgnoreCaseAsciiLower` | src/main/java/com/tnh/baseware/core/specs/FieldType.java:13-17 | Between ASCII strings, matching ignoring case is equality of the lower-cased strings. |
| `JavaText.EqualsIgnoreCaseLowerCase` | src/main/java/com/tnh/baseware/core/enums/task/TaskAction.java:14-25 | Every string matches its lower-cased form. |
| `JavaText.NaturalText` | src/main/java/com/tnh/baseware/core/enums/OrganizationLevel.java:29 | The decimal digits of a natural number, not empty and without a leading zero. |
| `JavaText.IntegerText` | src/main/java/com/tnh/baseware/core/enums/OrganizationLevel.java:29 | The decimal form of an integer is not empty. |
| `FieldTypes.ParseDecimal` | src/main/java/com/tnh/baseware/core/specs/FieldType.java:54-64 | `Integer.valueOf` / `Long.valueOf`: accepts exactly the texts made of an optional '+' or '-' and at least one digit whose signed value lies in the range, and then returns that value. |
| `FieldTypes.Parse` | src/main/java/com/tnh/baseware/core/specs/FieldType.java:13-81 | BOOLEAN, DATE and STRING never fail. UUID fails only on null. CHAR fails exactly on null or empty input. INTEGER and LONG results lie in the 32-bit and 64-bit ranges. |
| `FieldTypes.BooleanParse` | src/main/java/com/tnh/baseware/core/specs/FieldType.java:13-17 | True exactly for "true" in any mix of cases; false for anything else and for null. |
| `FieldTypes.CharParse` | src/main/java/com/tnh/baseware/core/specs/FieldType.java:19-23 | The first character; the empty string is `StringIndexOutOfBoundsException`. |
| `FieldTypes.StringParse` | src/main/java/com/tnh/baseware/core/specs/FieldType.java:77-81 | The input comes back unchanged. |
| `FieldTypes.DigitsValueOfNaturalText` | src/main/java/com/tnh/baseware/core/specs/FieldType.java:54-64 | Reading back the decimal text of a natural number gives the number. |
| `FieldTypes.ParseDecimalOfNatural` | src/main/java/com/tnh/baseware/core/specs/FieldType.java:54-64 | The text of a non-negative number in range parses to that number. |
| `FieldTypes.ParseDecimalOfNegative` | src/main/java/com/tnh/baseware/core/specs/FieldType.java:54-64 | The text of a negative number in range parses to that number. |
| `FieldTypes.ParseDecimalOfText` | src/main/java/com/tnh/baseware/core/specs/FieldType.java:54-64 | Parsing the decimal text of any number in range gives the number back. |
| `FieldTypes.NumberRoundTrip` | src/main/java/com/tnh/baseware/core/specs/FieldType.java:54-64 | INTEGER and LONG read back the decimal text of every value of their range. |
| `FieldTypes.NumberOverflow` | src/main/java/com/tnh/baseware/core/specs/FieldType.java:54-64 | One past the top of the range is a `NumberFormatException`. |
| `FieldTypes.NumberUnderflow` | src/main/java/com/tnh/baseware/core/specs/FieldType.java:54-64 | One below the bottom of the range is a `NumberFormatException`. |
| `FieldTypes.NumberNonCanonical` | src/main/java/com/tnh/baseware/core/specs/FieldType.java:54-64 | "+5", "007" and "-0" are read as 5, 7 and 0. |
| `FieldTypes.NumberMalformed` | src/main/java/com/tnh/baseware/core/specs/FieldType.java:54-58 | A lone sign, the empty string and null are a `NumberFormatException`. |
| `FieldTypes.UuidParse` | src/main/java/com/tnh/baseware/core/specs/FieldType.java:66-75 | A malformed UUID yields null instead of an exception; a well-formed one yields its value. |
| `FieldTypes.DateParse` | src/main/java/com/tnh/baseware/core/specs/FieldType.java:25-46 | Text with a 'T' takes the ISO-8601 parser and other text the local pattern. A failure, null input included, yields null. |
| `LinkedMaps.Keys` | src/main/java/com/tnh/baseware/core/configs/OpenApiConfiguration.java:135-138 | The keys, position by position. |
| `LinkedMaps.Get` | src/main/java/com/tnh/baseware/core/configs/OpenApiConfiguration.java:181-182 | Absent exactly when the key is missing; otherwise the value of an entry for the key. |
| `LinkedMaps.Put` | src/main/java/com/tnh/baseware/core/configs/OpenApiConfiguration.java:135-138 | An existing key keeps its place; a new key is appended. |
| `LinkedMaps.PutNew` | src/main/java/com/tnh/baseware/core/configs/OpenApiConfiguration.java:135-138 | Putting a new key appends one entry. |
| `LinkedMaps.GetPut` | src/main/java/com/tnh/baseware/core/configs/OpenApiConfiguration.java:120-126 | After a put, the key reads the new value and every other key reads as before. |
| `LinkedMaps.Remove` | src/main/java/com/tnh/baseware/core/configs/OpenApiConfiguration.java:181-182 | Removing keeps only entries with another key, and removing a missing key changes nothing. |
| `LinkedMaps.GetRemove` | src/main/java/com/tnh/baseware/core/configs/OpenApiConfiguration.java:181-182 | After a remove, the key reads null and every other key reads as before. |
| `LinkedMaps.RemoveIdempotent` | src/main/java/com/tnh/baseware/core/configs/OpenApiConfiguration.java:181-182 | Removing a key twice is removing it once. |
| `LinkedMaps.PutAllNew` | src/main/java/com/tnh/baseware/core/configs/OpenApiConfiguration.java:133-138 | Putting distinct new keys appends their entries in order. |
| `LinkedMaps.AppendFirst` | src/main/java/com/tnh/baseware/core/configs/OpenApiConfiguration.java:133-138 | Moving the first new entry onto the map keeps the concatenation. |
| `LinkedMaps.PutAllStep` | src/main/java/com/tnh/baseware/core/configs/OpenApiConfiguration.java:133-138 | The first put of a new key appends its entry. |
| `LinkedMaps.StillNew` | src/main/java/com/tnh/baseware/core/configs/OpenApiConfiguration.java:133-138 | After the first of distinct new keys is put, the others are still new. |
| `OpenApi.Schema.AddProperty` | src/main/java/com/tnh/baseware/core/configs/OpenApiConfiguration.java:135-138 | The property map is created on first use. The names gain the key at the end unless it is there already, and a new key appends its entry. |
| `OpenApi.AddProperties` | src/main/java/com/tnh/baseware/core/configs/OpenApiConfiguration.java:133-138 | A chain of `addProperty` changes only the property map. |
| `OpenApi.AddPropertiesFresh` | src/main/java/com/tnh/baseware/core/configs/OpenApiConfiguration.java:133-138 | Adding distinct names to a schema without properties yields exactly those entries, in order. |
| `OpenApi.AddPropertiesPutAll` | src/main/java/com/tnh/baseware/core/configs/OpenApiConfiguration.java:133-138 | A chain of `addProperty` is a chain of puts on the property map. |
| `OpenApi.ObjectSchema` | src/main/java/com/tnh/baseware/core/configs/OpenApiConfiguration.java:141-143 | A reference to "#/components/schemas/" plus the DTO name, with no type, properties or items. |
| `OpenApi.ListSchema` | src/main/java/com/tnh/baseware/core/configs/OpenApiConfiguration.java:145-149 | An array whose items are that reference. |
| `OpenApi.PageSchema` | src/main/java/com/tnh/baseware/core/configs/OpenApiConfiguration.java:151-159 | An object with exactly content (the list) and the integers totalElements, totalPages, size and number, in that order. |
| `OpenApi.PageMetadataSchema` | src/main/java/com/tnh/baseware/core/configs/OpenApiConfiguration.java:165-170 | An untyped object with exactly the integers size, totalElements, totalPages and number. |
| `OpenApi.LinksSchema` | src/main/java/com/tnh/baseware/core/configs/OpenApiConfiguration.java:171-175 | A map whose values are references to `Link`. |
| `OpenApi.HateoasPageSchema` | src/main/java/com/tnh/baseware/core/configs/OpenApiConfiguration.java:161-176 | An object with exactly content, page and `_links`, in that order. |
| `OpenApi.BaseEnvelopeSchema` | src/main/java/com/tnh/baseware/core/configs/OpenApiConfiguration.java:132-139 | An object with exactly message (string), result (boolean), code (integer) and data, in that order. |
| `OpenApi.SuccessResponse` | src/main/java/com/tnh/baseware/core/configs/OpenApiConfiguration.java:120-126 | Description "Success" and one application/json entry holding the envelope of the annotation's shape. |
| `OpenApi.Operation.constructor` | src/main/java/com/tnh/baseware/core/configs/OpenApiConfiguration.java:103-104 | An operation with the given responses. |
| `OpenApi.CustomizeOperation` | src/main/java/com/tnh/baseware/core/configs/OpenApiConfiguration.java:103-130 | Without the annotation the operation is unchanged. With it, "200" is put with the success response. The same operation is returned. |
| `OpenApi.CustomizedResponses` | src/main/java/com/tnh/baseware/core/configs/OpenApiConfiguration.java:120-126 | After customizing, "200" holds the success envelope and every other status code reads as before. |
| `OpenApi.DefaultShapeIsList` | src/main/java/com/tnh/baseware/core/annotations/ApiOkResponse.java:16 | An annotation without `type()` selects LIST: an array of references to the DTO. |
| `OpenApi.WithoutLinks` | src/main/java/com/tnh/baseware/core/configs/OpenApiConfiguration.java:181-182 | `_links` is gone, every other property reads as before, and nothing else in the schema changes. |
| `OpenApi.StripLinks` | src/main/java/com/tnh/baseware/core/configs/OpenApiConfiguration.java:178-183 | The same component names, each schema without its links. |
| `OpenApi.StripLinksIdempotent` | src/main/java/com/tnh/baseware/core/configs/OpenApiConfiguration.java:178-183 | Hiding the links twice is hiding them once. |
| `OpenApi.Components.constructor` | src/main/java/com/tnh/baseware/core/configs/OpenApiConfiguration.java:180 | Components with the given schema map, which may be null. |
| `OpenApi.HideHateoasLinks` | src/main/java/com/tnh/baseware/core/configs/OpenApiConfiguration.java:178-183 | Fails when the components or their schema map are null, changing nothing. Otherwise succeeds exactly when every schema has a property map, and then the schemas are `StripLinks` of the old ones. Either way, when the schema map is present, the names stay and each schema is unchanged or has lost only its links. |
| `OpenApi.HideLinksInSchemas` | src/main/java/com/tnh/baseware/core/configs/OpenApiConfiguration.java:180-182 | Succeeds exactly when every schema has a property map, and then the schemas are `StripLinks` of the old ones. Either way the names stay, and each schema is unchanged or has lost only its links. |
| `OpenApi.StrippedExceptPartly` | src/main/java/com/tnh/baseware/core/configs/OpenApiConfiguration.java:180-182 | Part-way through the loop, every schema is unchanged or has lost only its links, and a schema still to visit without a property map means the call cannot succeed. |
| `OpenApi.StrippedExceptAll` | src/main/java/com/tnh/baseware/core/configs/OpenApiConfiguration.java:180-182 | When the loop has visited every schema, every schema had a property map and the result is `StripLinks` of the old schemas. |

## Left out

- **Transactions.** `@Transactional` and its isolation levels are not modelled, nor is concurrency, such as
  two `assignUsers` racing. Each service method is one atomic step, and a failure leaves the tables as they were.
- **Persistence.** The JPA repositories are the service's fields. These queries are functions with the semantics
  their names and uses state:
  - `findAllById` returns the found ids in order of first mention; the database's own order is not modelled.
  - `findActiveUserIdsByOrganizationId`.
  - `deactivateUsers`: rows of the organization, for one of the users, currently active, set to inactive.
  - `findByUserIdAndOrganizationId`.
  - `findByCodeAndName`.

  Entity ids and generated UUIDs are natural numbers, and auditing fields are not modelled.
- **DataIntegrityViolation.** The unique constraint is checked when the new rows are saved. The exception the database
  raises then is the outcome `DataIntegrityViolation`, with the tables unchanged. It happens exactly when a row to
  create has the pair of a stored row, which the active-only filter allows only for an inactive stored row.
- **findAll(Pageable).** The unpaged `findAll` and `mapOrganizationsToTree` are not part of this model.
  `buildOrganizationTree` is a function parameter. The root query `findAllParent`, with its `createdDate` sort and
  paging, is an input page. The total adjustment `PageImpl` makes for a short last page is not modelled.
- **Message texts.** `messageService.getMessage` is not modelled: not-found errors carry their message key and
  illegal-state errors their fixed message.
- FieldTypes.Parse: does not model DOUBLE's floating point, or the grammars of `UUID.fromString`, `Instant.parse`
  and the "dd/MM/yyyy HH:mm:ss" parser with the system time zone. These are parameters. The logging in DATE and UUID is
  left out too.
- FieldTypes.ParseDecimal: accepts only the ASCII digits '0' to '9'. `Integer.valueOf` also accepts other Unicode
  decimal digits; that case is left out.
- JavaText.ToUpperCase: maps only the characters whose upper case can make them match an ASCII letter. Every
  case-insensitive comparison in this core has an ASCII constant on one side, so other mappings cannot change a result.
- JavaText.ToLowerCase: likewise maps only the characters whose lower case can make them match an ASCII letter.
- FieldTypes.Parse: takes CHAR's `charAt(0)` as the first character of the string. Characters outside the Basic
  Multilingual Plane, which Java stores as two UTF-16 units, are not split.
- **OpenAPI plumbing.** `customOpenAPI`, `apiInfo`, `apiServers`, `apiExternalDocs`, `securityScheme` and
  `registerCustomConverter` only copy configuration into swagger objects. They are not part of this model.
- OpenApi.Schema: keeps only the fields this configuration sets, and schemas are values. Aliasing between swagger
  schema objects is not modelled.
- OpenApi.HideHateoasLinks and OpenApi.HideLinksInSchemas: visit the component schemas in an unspecified order. When a schema has no property map,
  the Java throws a `NullPointerException`. The model then reports failure and keeps the schemas already visited in
  their changed form, but does not say which ones those are.
- **Other files.** `DateTimeUtils`, the MapStruct mappers, the DTOs and forms, and `TaskCommentAttachment` hold no
  logic of this core.
