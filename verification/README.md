# Task-management JSON:API backend — the resource registry, its request validators and the task-assignee relationship

This project is a Dafny model of the core of a JSON:API backend for projects, tasks, categories, groups and users. The model covers:

- **The resource registry.** This is the closed catalogue of the five resource types. For each type it gives:
  - the fields a listing may be sorted on;
  - the relationships a document may include;
  - the validation rules of create and update;
  - the relationships, in declaration order.
- **Include resolution.** Requested relationships are gated by the type's includable list. Each linked (type, id) is kept once, where it is first seen. With nothing requested, the `included` member is absent.
- **The relationship-request validator.** It wants `data` as `null`, a list of resource identifiers, or a single identifier, and reports violations as the framework's English messages at JSON pointers. As written it never accepts a single identifier that has an `id` or a `type`.
- **The group-update validator.** It requires a complete resource object and checks each optional attribute only when given.
- **The task-assignee relationship.** A class holds a task's memberships (user ↦ supervisor flag) and the log of notifications sent. Its operations are:
  - listing the assignees;
  - replacing them, which notifies the users added and the users removed, each once;
  - promoting and demoting supervisors.
- **Page links of a paginated listing.**

Validation is a small rule engine for the rule atoms the registry and the two requests use (module `Rules`):

- `present`, `required`, `required-if` (another key present) and `sometimes`;
- `nullable`, `string`, `integer`, `boolean`, `array` and `in`;
- `max`, `min` and `confirmed`;
- `email`, `unique`, `image`, `mimes` and `date_format`. These five consult the database, a file or a date parser, so each is a predicate passed in as a parameter (`External`).

Key paths work as follows:

- A wildcard key `data.*.id` is expanded over every entry of `data`, whatever the entry holds. The framework first turns a scalar or null entry into an array whose `id` is null, so such an entry is reached with its `id` absent and fails `required`. The entries of a single identifier object are its members, so the wildcard keys reach those too.
- An error's pointer is `/` followed by the dotted key with `.` turned into `/`.
- The display name in a message is the raw key for wildcard-expanded keys. For explicit keys it is the key with `_` turned into a space.

Each request is given a *reference statement* of what it accepts, written without the rule engine (`ListAcceptedIff`, `SingularAcceptedIff`, `GroupUpdateAcceptedIff`). The engine's verdict is proved equal to it.

Because the collection keys also reach a single identifier's members, the relationship request as written never accepts a single identifier that has an `id` or a `type` (see "## Findings"). The model keeps the request as written and adds the evidently intended one, `IntendedErrors`, where the collection keys apply to lists only.

The controller calls the notification handler (line 36) before it syncs the relationship (line 38). The model keeps that order: notifications are computed from the membership before the change, then the membership is replaced.

## Model

| member | source | states |
|---|---|---|
| Registry.Describe | config/jsonapi.php:3-157 | Lookup succeeds exactly for the five registered names and yields that name's descriptor; any other name is an unknown resource type |
| Registry.ExactlyFiveTypes | config/jsonapi.php:4-155 | The registry holds exactly users, categories, projects, tasks and groups, and lookup fails for every other name |
| Registry.IncludesMatchRelationships | config/jsonapi.php:11-43 | For every type, the includable names are exactly the accessors of its declared relationships |
| Registry.RelationshipTargetsRegistered | config/jsonapi.php:30-43 | Every relationship of every type leads to a registered type |
| Registry.IsSortAllowed | config/jsonapi.php:6-10 | Sorting is allowed only on a registered type |
| Registry.SortAllowedIff | config/jsonapi.php:6-10 | Sorting on a field is allowed if and only if the type is registered and lists the field among its sortable fields |
| Registry.TaskSorts | config/jsonapi.php:103-107 | Tasks can be sorted on title, created_at and updated_at, and on nothing else |
| Registry.IsIncludeAllowed | config/jsonapi.php:108-110 | Including is allowed only on a registered type |
| Registry.IncludeAllowedIff | config/jsonapi.php:11-15 | Including a relationship is allowed if and only if the type is registered and lists the relationship among its includable names |
| Registry.GroupsIncludeNothing | config/jsonapi.php:140 | Groups allow no include at all |
| Registry.RulesFor | config/jsonapi.php:16-29 | A rule list exists exactly for the registered types, and it is the type's create rules for a create and its update rules for an update |
| Registry.UsersRules | config/jsonapi.php:17-28 | The rules given for creating and updating a user are the user descriptor's create and update lists |
| Registry.UsersUpdateRulesAreOptional | config/jsonapi.php:22-28 | Every user-update rule is on an attribute and starts with `sometimes` |
| Registry.UsersUpdateFields | config/jsonapi.php:23-27 | The five user-update rules are optional rules on name, profile_avatar, email, username and status, in that order |
| Registry.UsersUpdateWithoutAttributesPasses | config/jsonapi.php:22-28 | A user update that carries none of the five updatable attributes violates no rule |
| Registry.AbsentAttributesPass | config/jsonapi.php:22-28 | Optional attribute rules pass whenever none of their attributes is present |
| Registry.UsersCreateRequiresCredentials | config/jsonapi.php:18-20 | Creating a user without name, email or password reports "The data.attributes.<k> field is required." at /data/attributes/<k> |
| Registry.RequiredAttributeReported | config/jsonapi.php:18-20 | An absent attribute whose rules start with `required` (and lack `sometimes`) is reported as required at its pointer |
| Registry.AttributeNames | config/jsonapi.php:18-20 | The pointer of `data.attributes.<k>` is /data/attributes/<k>, and its display name is data.attributes.<k> |
| Includes.FirstDisallowed | config/jsonapi.php:11-15 | No name is returned if and only if every requested name is allowed; a returned name was requested and is not allowed |
| Includes.Dedup | tests/Feature/TasksRelationshipsTest.php:548-772 | The result has no duplicates, and an element is in it if and only if it is in the input |
| Includes.DedupFirstSeenOrder | tests/Feature/TasksRelationshipsTest.php:548-772 | Deduplicated elements appear in the order of their first occurrence in the input |
| Includes.DedupOfDistinct | tests/Feature/TasksRelationshipsTest.php:548-772 | A list without repetitions is left unchanged |
| Includes.DedupIgnoresSeen | tests/Feature/TasksRelationshipsTest.php:548-772 | Appending elements already seen does not change the deduplicated list |
| Includes.DedupMembers | tests/Feature/TasksRelationshipsTest.php:548-772 | An element is kept if and only if it occurs in the input |
| Includes.FirstIndex | tests/Feature/TasksRelationshipsTest.php:548-772 | The returned position holds the element, and no earlier position does |
| Includes.FirstIndexInPrefix | tests/Feature/TasksRelationshipsTest.php:548-772 | An element's first position is the same in a list and in any prefix that contains it |
| Includes.LinkedThroughMembers | app/Models/Task.php:30-33 | A primary links an identifier if and only if some requested relationship's accessor yields it |
| Includes.ReferencedMembers | tests/Feature/TasksRelationshipsTest.php:416-532 | An identifier is referenced if and only if some primary links it through a requested relationship |
| Includes.AbsentWithoutRequest | tests/Feature/TasksRelationshipsTest.php:399-414 | Without an include request, `included` is absent (not empty) for every registered type |
| Includes.RejectsDisallowed | config/jsonapi.php:108-110 | A non-empty include request is rejected if and only if it names a relationship the type does not allow |
| Includes.GroupsRejectEveryInclude | config/jsonapi.php:140 | Any include request on groups fails, naming its first relationship |
| Includes.ResolvedIsDedupOfReferenced | tests/Feature/TasksRelationshipsTest.php:327-398 | A resolved `included` list is the deduplication of everything the primaries link through the requested relationships |
| Includes.ResolvedIncluded | tests/Feature/TasksRelationshipsTest.php:416-532 | A resolved `included` list has no duplicates, holds exactly the linked identifiers, and is in first-seen order |
| Includes.IncludedFromReferences | tests/Feature/TasksRelationshipsTest.php:416-532 | Deduplicated references hold exactly what some primary links, in first-seen order |
| Includes.SharedAssigneesIncludedOnce | tests/Feature/TasksRelationshipsTest.php:548-772 | Three tasks that share assignees 1, 2 and 3 include each of those users once, in that order |
| Includes.ReferencedByThree | tests/Feature/TasksRelationshipsTest.php:548-772 | Three primaries that link the same identifiers reference them three times over |
| RelationshipRequest.Authorize | app/Http/Requests/JSONAPIRelationshipRequest.php:15-18 | Every caller is authorised |
| RelationshipRequest.AcceptedIffEveryKey | app/Http/Requests/JSONAPIRelationshipRequest.php:25-36 | A body is accepted if and only if each of the five rule keys passes |
| RelationshipRequest.DataKeyPasses | app/Http/Requests/JSONAPIRelationshipRequest.php:28 | `data` passes when it is an array, an object or null |
| RelationshipRequest.ListHasNoOwnMembers | app/Http/Requests/JSONAPIRelationshipRequest.php:30-31 | A list has no `id` or `type` member of its own |
| RelationshipRequest.SingularKeysPassWhenAbsent | app/Http/Requests/JSONAPIRelationshipRequest.php:30-31 | `data.id` and `data.type` pass when both are absent |
| RelationshipRequest.AbsentIdPasses | app/Http/Requests/JSONAPIRelationshipRequest.php:30 | `data.id` is not required while `data.type` is absent |
| RelationshipRequest.AbsentTypePasses | app/Http/Requests/JSONAPIRelationshipRequest.php:31 | `data.type` is not required while `data.id` is absent |
| RelationshipRequest.ElementIdPasses | app/Http/Requests/JSONAPIRelationshipRequest.php:33 | An element's `id` passes if and only if it is a non-blank string |
| RelationshipRequest.ElementTypePasses | app/Http/Requests/JSONAPIRelationshipRequest.php:34 | An element's `type` passes if and only if it is a string naming a registered type |
| RelationshipRequest.TypeNamesAreWords | app/Http/Requests/JSONAPIRelationshipRequest.php:34 | Every registered type name is a lower-case word, so no non-string value prints as one |
| RelationshipRequest.EntriesPass | app/Http/Requests/JSONAPIRelationshipRequest.php:33-34 | The wildcard keys pass if and only if every entry of `data`, whatever its value, is an identifier with a valid `id` and `type` |
| RelationshipRequest.EntryIdsPass | app/Http/Requests/JSONAPIRelationshipRequest.php:33 | `data.*.id` passes if and only if every entry of `data` has a non-blank string `id` |
| RelationshipRequest.EntryTypesPass | app/Http/Requests/JSONAPIRelationshipRequest.php:34 | `data.*.type` passes if and only if every entry of `data` has a registered `type` |
| RelationshipRequest.ListElementsPass | app/Http/Requests/JSONAPIRelationshipRequest.php:33-34 | The wildcard keys pass a list if and only if every entry in it, scalars and null included, has a valid `id` and `type` |
| RelationshipRequest.ListAcceptedIff | app/Http/Requests/JSONAPIRelationshipRequest.php:25-36 | A list is accepted if and only if every entry in it is an object with a non-blank string `id` and a registered `type`; a scalar or null entry makes it rejected |
| RelationshipRequest.EmptyListAccepted | tests/Feature/TasksRelationshipsTest.php:167-191 | The empty list is accepted |
| RelationshipRequest.NullDataAccepted | app/Http/Requests/JSONAPIRelationshipRequest.php:28 | `data: null` is accepted |
| RelationshipRequest.NoElementsNoErrors | app/Http/Requests/JSONAPIRelationshipRequest.php:33-34 | The wildcard keys report nothing for `data` without entries: null, a scalar, an empty list or an empty object |
| RelationshipRequest.ElementErrorReported | app/Http/Requests/JSONAPIRelationshipRequest.php:33-34 | An element's error is among the request's errors |
| RelationshipRequest.ElementNames | app/Http/Requests/JSONAPIRelationshipRequest.php:33-34 | Element `i`'s key `m` has pointer /data/<i>/<m> and display name data.<i>.<m> |
| RelationshipRequest.ElementError | app/Http/Requests/JSONAPIRelationshipRequest.php:33-34 | An element's first failing rule gives one error at /data/<i>/<m> whose message names data.<i>.<m> |
| RelationshipRequest.ElementErrorSpelled | app/Http/Requests/JSONAPIRelationshipRequest.php:33-34 | The same error, with its pointer and message spelled out from their literal pieces |
| RelationshipRequest.MissingElementIdReported | tests/Feature/TasksRelationshipsTest.php:224-251 | An element without `id` is reported as "The data.<i>.id field is required." at /data/<i>/id |
| RelationshipRequest.NonStringElementIdReported | tests/Feature/TasksRelationshipsTest.php:253-281 | An element whose `id` is a non-string is reported as "The data.<i>.id must be a string." at /data/<i>/id |
| RelationshipRequest.MissingElementTypeReported | tests/Feature/TasksRelationshipsTest.php:283-311 | An element without `type` is reported as "The data.<i>.type field is required." at /data/<i>/type |
| RelationshipRequest.UnregisteredElementTypeReported | app/Http/Requests/JSONAPIRelationshipRequest.php:34 | An element whose `type` is unregistered is reported as "The selected data.<i>.type is invalid." at /data/<i>/type |
| RelationshipRequest.MissingDataFailsPresent | app/Http/Requests/JSONAPIRelationshipRequest.php:28 | An absent `data` fails `present` first |
| RelationshipRequest.MissingDataKeyError | app/Http/Requests/JSONAPIRelationshipRequest.php:28 | An absent `data` makes its key report "The data field must be present." at /data |
| RelationshipRequest.MissingDataOtherKeysPass | app/Http/Requests/JSONAPIRelationshipRequest.php:30-34 | Without `data`, no other key reports anything |
| RelationshipRequest.MissingDataReported | app/Http/Requests/JSONAPIRelationshipRequest.php:25-36 | A body without `data` reports exactly one error: "The data field must be present." at /data |
| RelationshipRequest.IdKeyPasses | app/Http/Requests/JSONAPIRelationshipRequest.php:30 | `data.id` is required when `data.type` is given, and must be a string whenever it is given |
| RelationshipRequest.TypeKeyPasses | app/Http/Requests/JSONAPIRelationshipRequest.php:31 | `data.type` is required when `data.id` is given; when `data.id` is absent, a given `data.type` passes if and only if it is blank or names a registered type |
| RelationshipRequest.TypeRequiredPasses | app/Http/Requests/JSONAPIRelationshipRequest.php:31 | With `data.id` given, `data.type` passes if and only if it names a registered type |
| RelationshipRequest.TypeOptionalPasses | app/Http/Requests/JSONAPIRelationshipRequest.php:31 | With `data.id` absent, `data.type` passes when absent, and when given if and only if it is blank or names a registered type |
| RelationshipRequest.SingularMembers | app/Http/Requests/JSONAPIRelationshipRequest.php:29-31 | `data.id` and `data.type` of an object body are its `id` and `type` members |
| RelationshipRequest.SingularAcceptedIff | app/Http/Requests/JSONAPIRelationshipRequest.php:25-36 | An object as `data` is accepted if and only if it has no `id` and no `type` member and each of its members is a valid identifier |
| RelationshipRequest.IdMemberFails | app/Http/Requests/JSONAPIRelationshipRequest.php:30 | An `id` member that is itself an identifier object fails `data.id`'s `string` |
| RelationshipRequest.TypeMemberFails | app/Http/Requests/JSONAPIRelationshipRequest.php:31 | A `type` member that is itself an identifier object fails `data.type`'s `in` |
| RelationshipRequest.SingularKeysWithIdentifierMembers | app/Http/Requests/JSONAPIRelationshipRequest.php:30-31 | When every member is an identifier, `data.id` and `data.type` pass if and only if neither member is there |
| RelationshipRequest.SingleIdentifierRejected | app/Http/Requests/JSONAPIRelationshipRequest.php:29-34 | A single identifier with an `id` or a `type` member is always rejected |
| RelationshipRequest.SingleUserRejected | app/Http/Requests/JSONAPIRelationshipRequest.php:29-34 | `{"data": {"id": "1", "type": "users"}}` is rejected |
| RelationshipRequest.ScalarEntryReported | app/Http/Requests/JSONAPIRelationshipRequest.php:33 | `{"data": [5]}` reports "The data.0.id field is required." at /data/0/id |
| RelationshipRequest.IntendedRules | app/Http/Requests/JSONAPIRelationshipRequest.php:27-35 | A list is checked by all five keys; any other `data` by the three single-resource keys only |
| RelationshipRequest.IntendedListUnchanged | app/Http/Requests/JSONAPIRelationshipRequest.php:32-34 | On a list the intended request reports what the request as written reports, and accepts exactly the lists of valid identifiers |
| RelationshipRequest.IntendedAcceptedIffThreeKeys | app/Http/Requests/JSONAPIRelationshipRequest.php:28-31 | Outside lists the intended request passes if and only if `data`, `data.id` and `data.type` each pass |
| RelationshipRequest.SingularKeysPass | app/Http/Requests/JSONAPIRelationshipRequest.php:30-31 | `data.id` and `data.type` pass a single identifier if and only if it has neither member, or a non-blank string `id` and a registered `type` |
| RelationshipRequest.IntendedSingularAcceptedIff | app/Http/Requests/JSONAPIRelationshipRequest.php:29-31 | Under the intended request a single identifier is accepted if and only if it has neither `id` nor `type`, or a non-blank string `id` and a registered `type` |
| RelationshipRequest.SingleUserIntendedAccepted | app/Http/Requests/JSONAPIRelationshipRequest.php:29-31 | The intended request accepts `{"data": {"id": "1", "type": "users"}}` |
| GroupRequest.GroupRulesCoincideWithRegistry | app/Http/Requests/Groups/UpdateGroupRequest.php:31-33 | The request's attribute rules are exactly the registry's group update rules |
| GroupRequest.AcceptedIffEveryKey | app/Http/Requests/Groups/UpdateGroupRequest.php:24-35 | A body is accepted if and only if each of the seven rule keys passes |
| GroupRequest.ResourceKeysPass | app/Http/Requests/Groups/UpdateGroupRequest.php:27-30 | `data` and `data.attributes` must be non-empty arrays; `id` a non-blank string; `type` exactly "groups" |
| GroupRequest.ArrayKeyPasses | app/Http/Requests/Groups/UpdateGroupRequest.php:27 | `required\|array` passes if and only if the value is a non-empty array or object |
| GroupRequest.IdKeyPasses | app/Http/Requests/Groups/UpdateGroupRequest.php:28 | `data.id` passes if and only if it is a non-blank string |
| GroupRequest.TypeKeyPasses | app/Http/Requests/Groups/UpdateGroupRequest.php:29 | `data.type` passes if and only if it is the string "groups" |
| GroupRequest.AttributeKeysPass | app/Http/Requests/Groups/UpdateGroupRequest.php:31-33 | Each attribute passes if and only if it is absent or valid |
| GroupRequest.TitlePasses | app/Http/Requests/Groups/UpdateGroupRequest.php:31 | A title passes if and only if it is absent, or a non-blank string no other group has |
| GroupRequest.TitleRulesHold | app/Http/Requests/Groups/UpdateGroupRequest.php:31 | What each title rule checks of a title that is given |
| GroupRequest.OptionalIntegerPasses | app/Http/Requests/Groups/UpdateGroupRequest.php:32-33 | `project_id` and `user_id` pass if and only if absent or integers |
| GroupRequest.IntegersAreFilled | app/Http/Requests/Groups/UpdateGroupRequest.php:32-33 | Whatever the integer rule accepts also satisfies `required` |
| GroupRequest.GroupUpdateAcceptedIff | app/Http/Requests/Groups/UpdateGroupRequest.php:24-35 | A group update is accepted if and only if it meets the reference statement |
| GroupRequest.UpdateWithoutAttributesPasses | app/Http/Requests/Groups/UpdateGroupRequest.php:31-33 | A complete resource object whose attributes carry no title, project_id or user_id is accepted |
| GroupRequest.AttributesFailArray | app/Http/Requests/Groups/UpdateGroupRequest.php:30 | Attributes that are given but are not an array fail `array` first |
| GroupRequest.AttributesKeyError | app/Http/Requests/Groups/UpdateGroupRequest.php:30 | Such attributes make their key report exactly "The data.attributes must be an array." |
| GroupRequest.AttributesNotArrayReported | tests/Feature/UsersTest.php:114-146 | Attributes given as a non-object are reported as "The data.attributes must be an array." at /data/attributes |
| Rules.AttributeErrors | app/Http/Requests/Groups/UpdateGroupRequest.php:24-35 | At most one error per attribute, at the attribute's pointer; none exactly when it is absent under `sometimes` or every rule holds |
| Rules.FirstFailure | app/Http/Requests/Groups/UpdateGroupRequest.php:24-35 | No rule is returned exactly when all rules hold; a returned rule fails, and every earlier rule holds |
| Rules.ElementTargets | app/Http/Requests/JSONAPIRelationshipRequest.php:33-34 | A wildcard key reaches exactly one attribute per entry, scalar entries included: `prefix.<entry>.member`, marked as expanded, holding the entry's member or nothing |
| Rules.ElementTarget | app/Http/Requests/JSONAPIRelationshipRequest.php:33-34 | An entry's attribute is the key `prefix.<entry>.member` |
| Rules.TargetErrorsEmpty | app/Http/Requests/JSONAPIRelationshipRequest.php:33-34 | A key reports nothing if and only if each attribute it reaches reports nothing |
| Rules.TargetErrorsContain | app/Http/Requests/JSONAPIRelationshipRequest.php:33-34 | Every error of a reached attribute is among the key's errors |
| Rules.ValidateEmpty | app/Http/Requests/JSONAPIRelationshipRequest.php:25-36 | A rule list reports nothing if and only if each of its keys reports nothing |
| Rules.ValidateEmptyOfFive | app/Http/Requests/JSONAPIRelationshipRequest.php:25-36 | The same, spelled out for five keys |
| Rules.ValidateEmptyOfSeven | app/Http/Requests/Groups/UpdateGroupRequest.php:24-35 | The same, spelled out for seven keys |
| Rules.ValidateContains | app/Http/Requests/JSONAPIRelationshipRequest.php:25-36 | Every error of one key is among the request's errors |
| Rules.ElementTargetsPass | app/Http/Requests/JSONAPIRelationshipRequest.php:33-34 | A wildcard key passes if and only if it passes on every entry of its prefix |
| Rules.ElementTargetReported | app/Http/Requests/JSONAPIRelationshipRequest.php:33-34 | An entry's errors are among the wildcard key's errors |
| Rules.ExplicitKeyErrors | app/Http/Requests/Groups/UpdateGroupRequest.php:27-33 | An explicit key is checked as the one attribute it names |
| Rules.RequiredStringPasses | app/Http/Requests/JSONAPIRelationshipRequest.php:33 | `required\|string` passes if and only if the value is a non-blank string |
| Rules.RequiredInPasses | app/Http/Requests/JSONAPIRelationshipRequest.php:34 | `required\|in:<words>` passes if and only if the value is a string among the words |
| Rules.RequiredArrayPasses | app/Http/Requests/Groups/UpdateGroupRequest.php:27 | `required\|array` passes if and only if the value is a non-empty array or object |
| Rules.OnlyStringsPrintAsWords | app/Http/Requests/JSONAPIRelationshipRequest.php:34 | No non-string value prints as a lower-case word, so `in` accepts only strings here |
| Rules.WordsAreNotBlank | app/Http/Requests/JSONAPIRelationshipRequest.php:34 | A word is never blank |
| Rules.OptionalAbsentPasses | app/Http/Requests/Groups/UpdateGroupRequest.php:31-33 | A key under `sometimes` reports nothing when absent |
| Rules.OptionalFieldsAbsentPass | config/jsonapi.php:22-28 | A list of `sometimes` keys, none present, reports nothing |
| Rules.RequiredAbsentReported | config/jsonapi.php:18-20 | An absent key whose first rule is `required` reports exactly "The <name> field is required." at its pointer |
| Rules.PointerOfDotted | tests/Feature/TasksRelationshipsTest.php:224-251 | The pointer of a dotted key is / followed by its segments joined by / |
| Payload.ParseIndex | app/Http/Requests/JSONAPIRelationshipRequest.php:33-34 | A key selects a list entry only if it is all digits without a leading zero, and the entry is the one at their decimal value |
| Payload.NatToString | app/Http/Requests/JSONAPIRelationshipRequest.php:33-34 | A list position prints as a non-empty string of digits |
| Payload.NoLeadingZero | app/Http/Requests/JSONAPIRelationshipRequest.php:33-34 | A printed position starts with 0 only when it is 0 |
| Payload.DigitsOfNat | app/Http/Requests/JSONAPIRelationshipRequest.php:33-34 | The digits a position prints as have that position as their value |
| Payload.IndexRoundTrip | app/Http/Requests/JSONAPIRelationshipRequest.php:33-34 | The key a list position prints as parses back to that position |
| Payload.ChildOfList | app/Http/Requests/JSONAPIRelationshipRequest.php:33-34 | Entry i of a list is found under the key i prints as |
| Payload.Lookup | app/Http/Requests/JSONAPIRelationshipRequest.php:30-31 | A member is found if and only if the object has one with that name, and the value found is that member's |
| Payload.GetAppend | app/Http/Requests/JSONAPIRelationshipRequest.php:30-34 | Looking up a longer path is the child lookup on the shorter path's value |
| Payload.Children | app/Http/Requests/JSONAPIRelationshipRequest.php:33-34 | The entries of a list are keyed by their printed positions, those of an object by its member names; scalars have none |
| TaskAssignees.Diff | app/Http/Controllers/TaskUsersRelationshipController.php:36 | Added users are the requested users not yet members; removed users are the members not requested; the two sets are disjoint and turn the old membership into the new |
| TaskAssignees.DiffNotifications | app/Http/Controllers/TaskUsersRelationshipController.php:36 | At most two notifications, none to nobody; an assigned notice exactly when someone is added, an unassigned notice exactly when someone is removed |
| TaskAssignees.Synced | app/Http/Controllers/TaskUsersRelationshipController.php:38 | After a sync, the members are exactly the requested users; kept members keep their supervisor flag, new ones start without it |
| TaskAssignees.WithFlag | app/Http/Controllers/TaskUsersRelationshipController.php:52-54 | Only existing memberships change, and only those named get the new flag |
| TaskAssignees.Notify | app/Http/Controllers/TaskUsersRelationshipController.php:56-57 | A notification is sent exactly when it has recipients |
| TaskAssignees.Assignees.constructor | app/Models/Task.php:30-33 | A task starts with the given memberships and an empty log |
| TaskAssignees.Assignees.Index | app/Http/Controllers/TaskUsersRelationshipController.php:23-26 | The linkage lists each assignee once, as a `users` identifier, and nothing else |
| TaskAssignees.Assignees.Sync | app/Http/Controllers/TaskUsersRelationshipController.php:38 | The membership becomes the synced membership for the requested users, and the log is unchanged |
| TaskAssignees.Assignees.Detach | app/Http/Controllers/TaskUsersRelationshipController.php:38 | Removes exactly the memberships not kept; the rest keep their flags |
| TaskAssignees.Assignees.Attach | app/Http/Controllers/TaskUsersRelationshipController.php:38 | Adds every requested non-member without the supervisor flag; existing memberships are unchanged |
| TaskAssignees.Assignees.Update | app/Http/Controllers/TaskUsersRelationshipController.php:34-40 | 404 if and only if a named user does not exist, with nothing changed; otherwise 204, the membership replaced, and the diff's notifications appended |
| TaskAssignees.Assignees.Supervisor | app/Http/Controllers/TaskUsersRelationshipController.php:49-60 | Sets the supervisor flag of the named existing members, notifies the named users that exist, and replies 200 |
| TaskAssignees.Assignees.RemoveSupervisor | app/Http/Controllers/TaskUsersRelationshipController.php:68-79 | Clears the supervisor flag of the named existing members, notifies the named users that exist, and replies 200 |
| TaskAssignees.SyncReplaces | app/Http/Controllers/TaskUsersRelationshipController.php:38 | The new members are the added users together with the kept ones, which is exactly the requested set |
| TaskAssignees.NotifiedExactlyOnce | app/Http/Controllers/TaskUsersRelationshipController.php:36 | A user is notified at most once per replacement: assigned if added, unassigned if removed, and not at all if kept |
| TaskAssignees.ReplaceIsIdempotent | app/Http/Controllers/TaskUsersRelationshipController.php:34-40 | Replacing twice with the same set changes nothing more and sends no notification the second time |
| TaskAssignees.EmptyRequestClears | tests/Feature/TasksRelationshipsTest.php:167-191 | Replacing with the empty set removes every membership and notifies all former members as unassigned |
| TaskAssignees.DemoteUndoesPromote | app/Http/Controllers/TaskUsersRelationshipController.php:49-79 | Promoting then demoting the same users equals demoting them; no membership is added or removed |
| TaskAssignees.KeepSomeRemoveOthers | tests/Feature/TasksRelationshipsTest.php:122-165 | From users 1–10, keeping 1, 2 and 5 leaves those three and notifies 3, 4 and 6–10 as unassigned |
| TaskAssignees.ReplaceByTwo | tests/Feature/TasksRelationshipsTest.php:90-120 | From users 1–10, requesting 5 and 6 leaves exactly those two and notifies the other eight as unassigned |
| TaskAssignees.ReplaceAddsAndRemoves | app/Http/Controllers/TaskUsersRelationshipController.php:36-38 | Replacing {A, B, C} by {B, C, D} assigns D and unassigns A |
| TaskAssignees.UnknownUsersScenario | tests/Feature/TasksRelationshipsTest.php:193-222 | Naming users 5 and 6 who do not exist answers 404, and the memberships and the log stay as they were |
| Pagination.PageCount | tests/Feature/UsersTest.php:57-111 | The number of pages is the least count whose pages hold all items |
| Pagination.Paginate | tests/Feature/UsersTest.php:57-111 | Fails exactly on a non-positive size or number; otherwise first is 1, last the page count, prev present exactly after page 1, next present exactly when items remain |
| Pagination.PageItems | tests/Feature/UsersTest.php:57-111 | A page holds at most `size` items, namely those from position (number−1)·size onwards in order; it is shorter only when it runs to the end of the listing |
| Pagination.NextWithinLast | tests/Feature/UsersTest.php:57-111 | A next page is never past the last page |
| Pagination.PagesAfterLastAreEmpty | tests/Feature/UsersTest.php:57-111 | Pages after the last page hold nothing |
| Pagination.TenUsersFirstPage | tests/Feature/UsersTest.php:57-111 | Ten users in pages of five: page 1 has first 1, last 2, no previous page and next 2 |
| Pagination.NineItemsTwoPages | tests/Feature/UsersTest.php:57-111 | Nine items in pages of five: page 1 has a next page and no previous one; page 2 the reverse |

## Left out

- Rules.AttributeErrors: reports only the first failing rule of an attribute. The framework goes on to report further failures of non-implicit rules; the request's error document shows one error per key.
- Rules.Size: a string is always measured by its length. The framework measures a numeric string by its value when `integer` is among the rules; no rule list here combines `integer` with `max` or `min`.
- Payload.Lookup: of several members with the same name, the first is found, and Children lists every one of them. PHP's JSON decoder keeps one array entry with the last value, so `{"id": 5, "id": "1"}` has a string `id` there and a non-string `id` here.
- JSON numbers with a fraction or an exponent are not modelled: `Json` has integers only. A value such as `5.0`, which the framework's `integer` rule accepts, cannot be written.
- Rules.IsIntegerValue: an integer string may carry a sign and digits only. Surrounding whitespace and the 64-bit range of PHP's integer filter are not modelled.
- `email`, `unique`, `image`, `mimes` and `date_format` consult the database, an uploaded file or a date parser. They are predicates passed in as a parameter (`External`), not modelled.
- Middleware that rejects requests before validation (content type, authentication) and string normalisation (trimming, empty-to-null) are not modelled. Values reach the rules as decoded.
- Sorting a listing is not modelled. Only the registry's decision whether a field is sortable is.
- Links, URLs, resource objects' attributes and the JSON serialisation of documents are not modelled. Includes work on identifiers only.
- The service the controller delegates to (relationship fetching and the notification handler) is not part of this model. Index follows the linkage the controller returns at app/Http/Controllers/TaskUsersRelationshipController.php:23-26 and the test at tests/Feature/TasksRelationshipsTest.php:59-88. The diff notifications follow the call at app/Http/Controllers/TaskUsersRelationshipController.php:36 and the tests at tests/Feature/TasksRelationshipsTest.php:90-165.
- TaskAssignees.Assignees.Index: the linkage's order is not modelled. Memberships are a map, so Index promises each assignee once but in no particular order; the test at tests/Feature/TasksRelationshipsTest.php:59-88 expects users 2, 3 and 4 in the order they were attached.
- TaskAssignees.Assignees.Update: the 404 for an unknown user happens during route and request handling. It is modelled as a `userExists` predicate checked before any change.
- TaskAssignees.Assignees.Attach: new memberships are assumed to start without the supervisor flag. The table's default is not shown.
- TaskAssignees.Assignees.Supervisor and RemoveSupervisor: any validated body is acted on. No existence check or 404 is modelled, because the endpoints do none.
- Notification delivery (mail, database channels), the acting user named in a notification, and the notification's contents are not modelled. A notification is its kind and its recipients.
- Replies are only 204, 200 and 404. Other statuses (401, 415, 422 from validation) belong to the layers not modelled.
- GroupRequest: the request's `authorize` returns true like the relationship request's, and is modelled once, as RelationshipRequest.Authorize.
- Pagination.Paginate: `last` follows the page-count formula, so an empty listing has last page 0. The paginator the listing uses is not part of this model.
- The development setup command, the task factory and the unit test of user identifiers are not modelled.

## Findings

| source | as written | input that shows it | evidently intended | confidence | as-written member | corrected member |
|---|---|---|---|---|---|---|
| app/Http/Requests/JSONAPIRelationshipRequest.php:29-34 | The collection keys `data.*.id` and `data.*.type` apply to every `data`, so they also reach the members of a single identifier, whose values are scalars without an `id` | `{"data": {"id": "1", "type": "users"}}` reports that data.id.id, data.type.id, data.id.type and data.type.type are required | The keys marked "for single resources" check a single identifier and the keys marked "for collections" check lists only, so a single identifier with a string `id` and a registered `type` is accepted | high; not executed | RelationshipRequest.SingleUserRejected | RelationshipRequest.IntendedSingularAcceptedIff |
