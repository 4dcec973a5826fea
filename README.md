# Idea board backend, modelled in Dafny

This project models the backend of an idea-submission board. Signed-in users submit ideas and pledge support for them. Anyone can browse the ideas, optionally filtered by status. An admin moves ideas between five statuses, and a one-time bootstrap makes the first admin. The project also models the client-side check and normalisation that the submission form applies before it calls the backend.

Modules, one per source file:

- `Wrappers` (`wrappers.dfy`) holds `Option` and `Result`. A handler that throws returns `Failure(error)`.
- `Schema` (`schema.dfy`) follows `convex/schema.ts`. It has the status and role enumerations, the `Idea` and `UserRole` documents and the handlers' errors with their exact messages. Its `Database` class holds:
  - the `ideas` table, a map from id to idea;
  - the insertion counter that hands out idea ids;
  - the `userRoles` table, a sequence of records where a record's position is its document id;
  - the read-only user directory, a map from user id to optional email.

  Its four methods are the primitive writes, `insert` and `patch` on each table.
- `Ideas` (`ideas.dfy`) follows `convex/ideas.ts`: role lookup, the two guards, the queries `listIdeas`, `myIdeas` and `isAdmin`, and the mutations `submitIdea`, `pledgeSupport` and `updateIdeaStatus`.
- `Setup` (`setup.dfy`) follows `convex/setup.ts`: `hasAdminUser` and `createFirstAdmin`.
- `SubmissionForm` (`submission_form.dfy`) follows the validation and tag parsing in `handleSubmit` of `src/IdeaSubmissionForm.tsx`.
- `Scenario` (`scenario.dfy`) is a client of the contracts. It walks one idea on a fresh board through the bootstrap, submission, a pledge and approval, and proves each step's outcome from the contracts.

Modelling choices:

- The caller's identity, which the handlers get from the authentication provider, is an `Option<UserId>` argument. `None` means an anonymous caller.
- Idea ids come from a counter, so an id's value is its rank in creation order. "Newest first" therefore means decreasing ids. This stands in for `_creationTime`.
- `userRoles` is kept as a sequence of records, not as a map from user to role. With a map, "at most one role record per user" would hold by construction. As a sequence, it is the invariant `UniqueUsers`: `Database.Valid()` maintains it, and `createFirstAdmin` preserves it by looking up the record and then either patching it or inserting one.
- The status can only be one of the five values because `Status` is a closed datatype. `ParseStatus` models the argument validator, which accepts exactly the five literals.
- In `listIdeas`, `user?.email || "Unknown"` also falls back to "Unknown" when the stored email is the empty string, because the empty string is falsy in JavaScript. `SubmitterEmail` models that.
- Every mutation states that the ideas table only evolves (`Ideas.IdeasEvolve`). No idea disappears, the fields fixed at submission never change, and no `pledgeSupportCount` decreases.
- Every failure is stated to leave the database `unchanged`.

## Model

| member | source | states |
|---|---|---|
| `Schema.ParseStatus` | convex/schema.ts:11-17 | a string is accepted as a status exactly when it is one of the five literals, and it is accepted as the status with that literal |
| `Schema.FindRoleRow` | convex/ideas.ts:7-10 | the `by_user` lookup returns the position of the first record for the user, or reports that no record for that user exists |
| `Schema.Database.InsertIdea` | convex/ideas.ts:113-121 | the idea is stored under the next counter value, which was unused; no other idea and no role record changes |
| `Schema.Database.PatchIdea` | convex/ideas.ts:140-142 | only the patched idea changes |
| `Schema.Database.InsertRole` | convex/setup.ts:55-58 | one record is appended for a user who had none, so users stay unique |
| `Schema.Database.PatchRole` | convex/setup.ts:52 | only the role of the record at that position changes; its user stays the same |
| `Ideas.GetUserRole` | convex/ideas.ts:6-12 | the result is the role of the user's record when records are unique, and `user` when the user has no record |
| `Ideas.GetAuthenticatedUser` | convex/ideas.ts:15-21 | it succeeds exactly when there is a caller, returns the caller's id, and otherwise fails with "Not authenticated" |
| `Ideas.EnsureAdmin` | convex/ideas.ts:24-31 | no caller gives "Not authenticated"; a caller passes exactly when they have an admin role record, and otherwise gets "Admin access required"; a pass always returns the caller's own id |
| `Ideas.QueryDesc` | convex/ideas.ts:49-57 | an index query returns only stored ideas that the index selects, returns every one of them, and lists them in strictly decreasing id order |
| `Ideas.SubmitterEmail` | convex/ideas.ts:60-66 | the result is never empty; it is the stored email when that is present and non-empty, and "Unknown" otherwise |
| `Ideas.ListIdeas` | convex/ideas.ts:34-72 | with a status, exactly the ideas in that status; without one, every idea; newest first; each joined with its submitter's email |
| `Ideas.MyIdeas` | convex/ideas.ts:75-88 | an anonymous caller gets "Not authenticated"; a signed-in caller always succeeds, and the result is exactly the caller's ideas, newest first |
| `Ideas.QueryDescSingle` | convex/ideas.ts:49-57 | over a table holding a single idea, an index query returns that one document exactly when the idea is below the bound and the index selects it, and nothing otherwise |
| `Ideas.MyIdeasSingle` | convex/ideas.ts:75-88 | a caller whose only stored idea is the one in the table gets exactly that document from `myIdeas` |
| `Ideas.ListedUnderStatus` | convex/ideas.ts:34-72 | a stored idea is in `listIdeas` for a status exactly when it is in that status |
| `Ideas.IsAdmin` | convex/ideas.ts:91-100 | false for an anonymous caller without failing; otherwise true exactly when the caller has an admin role record |
| `Ideas.SubmitIdea` | convex/ideas.ts:103-125 | an anonymous caller gets "Not authenticated" and nothing changes; otherwise exactly one new idea is stored under a fresh id, with the fields verbatim, status pending, count 0 and the caller as submitter, and every existing idea is kept |
| `Ideas.WithPledge` | convex/ideas.ts:140-142 | one pledge raises that idea's count by one and changes no other field and no other idea |
| `Ideas.PledgeSupport` | convex/ideas.ts:128-146 | no caller gives "Not authenticated" and a missing id gives "Idea not found", both without any write; otherwise the count becomes old + 1, that value is returned, and nothing else changes |
| `Ideas.PledgesAccumulate` | convex/ideas.ts:140-144 | after n sequential pledges the count has grown by exactly n and nothing else has changed, so a new idea has count n |
| `Ideas.WithStatus` | convex/ideas.ts:168-170 | a status update changes only that idea's status |
| `Ideas.UpdateIdeaStatus` | convex/ideas.ts:149-174 | no caller gives "Not authenticated" and a non-admin gets "Admin access required"; a missing idea gives "Idea not found"; each failure happens without a write; otherwise an admin sets any status over any prior status and gets it back, and nothing else changes |
| `Setup.AdminIn` | convex/setup.ts:8-13 | the `by_role` query for `admin` finds a record exactly when some role record has role admin |
| `Setup.HasAdminUser` | convex/setup.ts:5-15 | true exactly when some role record has role admin |
| `Setup.AssignAdmin` | convex/setup.ts:45-59 | an existing record for the user is patched in place with no insert; with no record, exactly one `{userId, admin}` record is appended; other users' records are untouched; users stay unique; afterwards an admin record exists |
| `Setup.CreateFirstAdmin` | convex/setup.ts:19-63 | an existing admin gives "An admin user already exists" and an unknown email gives "User not found...", both before any write; otherwise the role table becomes `AssignAdmin` for a user with that email; afterwards `hasAdminUser` is true and ideas are untouched |
| `Setup.AssignAdminRoles` | convex/setup.ts:45-59 | after the bootstrap the target resolves to `admin`, and every other user resolves to the role they had before |
| `Setup.SoleAdmin` | convex/setup.ts:25-59 | when no admin record exists, the bootstrap leaves every user other than its target with role `user` |
| `Setup.SequentialBootstrap` | convex/setup.ts:25-32 | when a first bootstrap succeeds, a second one fails with "An admin user already exists", and the first target is then the only admin |
| `SubmissionForm.SkipStart` | src/IdeaSubmissionForm.tsx:28 | the result is the first position at or after the start that does not hold whitespace, or the end of the string; everything skipped is whitespace |
| `SubmissionForm.SkipEnd` | src/IdeaSubmissionForm.tsx:28 | the result is the end of the range once its trailing whitespace is cut off; everything cut off is whitespace, and the character before the new end is not |
| `SubmissionForm.Trim` | src/IdeaSubmissionForm.tsx:18 | the result is an infix of the input with whitespace only around it, and has no whitespace at either end; it is empty exactly when the input is all whitespace |
| `SubmissionForm.TrimIdempotent` | src/IdeaSubmissionForm.tsx:32-34 | trimming an already trimmed field changes nothing |
| `SubmissionForm.TrimNoNewChars` | src/IdeaSubmissionForm.tsx:28 | trimming adds no character, so a piece without commas stays without commas |
| `SubmissionForm.Split` | src/IdeaSubmissionForm.tsx:27 | splitting always gives at least one piece, even for the empty string |
| `SubmissionForm.SplitPieces` | src/IdeaSubmissionForm.tsx:27 | splitting on a character gives one more piece than there are separators, and no piece contains the separator |
| `SubmissionForm.SplitCons` | src/IdeaSubmissionForm.tsx:27 | a leading separator opens a new empty first piece; any other leading character is prepended to the first piece |
| `SubmissionForm.JoinConsPiece` | src/IdeaSubmissionForm.tsx:27 | joining the pieces of a string with one more leading character gives that character in front of the joined pieces |
| `SubmissionForm.JoinSplit` | src/IdeaSubmissionForm.tsx:27 | joining the pieces back with the separator gives the original string |
| `SubmissionForm.SplitNoSeparator` | src/IdeaSubmissionForm.tsx:27 | a string without the separator splits into itself alone |
| `SubmissionForm.SplitConcat` | src/IdeaSubmissionForm.tsx:27 | splitting `a + sep + b` gives the pieces of `a` followed by the pieces of `b` |
| `SubmissionForm.SplitJoin` | src/IdeaSubmissionForm.tsx:27 | splitting a join of separator-free pieces gives those pieces back |
| `SubmissionForm.TrimAll` | src/IdeaSubmissionForm.tsx:28 | the result has one entry per piece, and each entry is that piece trimmed |
| `SubmissionForm.TrimAllConcat` | src/IdeaSubmissionForm.tsx:28 | trimming each piece of a concatenation is the concatenation of trimming each part |
| `SubmissionForm.DropEmpty` | src/IdeaSubmissionForm.tsx:29 | the kept pieces are non-empty and each comes from the input; every non-empty input piece is kept; there are no more of them than input pieces |
| `SubmissionForm.DropEmptyConcat` | src/IdeaSubmissionForm.tsx:29 | filtering a concatenation filters each part and keeps their order |
| `SubmissionForm.ParseTags` | src/IdeaSubmissionForm.tsx:26-29 | every parsed tag is non-empty, contains no comma and has no whitespace at either end; there is at most one more tag than commas |
| `SubmissionForm.ParseTagsConcat` | src/IdeaSubmissionForm.tsx:26-29 | the tags of `a,b` are the tags of `a` followed by the tags of `b`, so tags keep the left-to-right order of their pieces |
| `SubmissionForm.ParseTagsPiece` | src/IdeaSubmissionForm.tsx:26-29 | a piece without commas gives no tag when it is all whitespace, and otherwise exactly its trimmed self |
| `SubmissionForm.PrepareSubmission` | src/IdeaSubmissionForm.tsx:18-35 | submission is refused, and nothing is sent, exactly when the title, description or category is all whitespace; otherwise those three are sent trimmed and non-empty, with the parsed tags |

## Left out

- Authentication: `getAuthUserId` belongs to the authentication provider; the caller's identity is a parameter.
- The store itself: the query builders, indexes and `Promise.all` of the Convex document store are the functions and maps above. The `by_support_count` index is declared but no handler in the core reads it.
- Duplicate records: `.unique()` throws when an index lookup finds two or more documents. For `userRoles` this cannot happen under `UniqueUsers`. For the user lookup by email in `createFirstAdmin` it is not modelled; `Setup.CreateFirstAdmin` picks one user with that email.
- Concurrency: the race between the existence check and the insert in `createFirstAdmin`, and the read-then-patch in `pledgeSupport`, are left out. The model runs handlers one after another.
- Real `_creationTime` timestamps and their display are replaced by the insertion counter.
- `pledgeSupportCount` is a JavaScript number in the schema; here it is a `nat`.
- `Ideas.ListIdeas`: `listIdeas` also asks for the caller's identity but never uses it, so the model takes no caller argument.
- `Setup.CreateFirstAdmin`: the success object `{ success: true, message }` is modelled as its message string.
- `SubmissionForm.Trim`: the whitespace set is space, tab, line feed, carriage return, vertical tab and form feed. JavaScript's `trim` uses the full Unicode whitespace and line-terminator set.
- The React side is not modelled: the components, their local state and the toasts shown on success and failure. That includes the status colours and labels of `src/IdeaList.tsx`, `src/App.tsx`, `src/SetupAdmin.tsx` and `src/AdminPanel.tsx`.
