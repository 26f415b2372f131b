# Stratos: verified models of its hard core

Stratos is a self-service portal over OpenStack, Ceph and Kubernetes. This project models the
parts of it whose correctness is not visible in any one function, and proves what they promise.

`dafny verify dfyconfig.toml` checks everything.

**Document store** (`Base`, `Ordering`, `Sql`, `Filter`, `FilterCorrect`, `SqlText`,
`FilterText`, `FilterLiterals`, `WhereBuilder`, `SetUnset`, `UpdateSql`, `UpdateOrder`,
`Statements`, `StoredValues`). Documents are JSON in one PostgreSQL column. A nested filter is
compiled to SQL text with positional arguments, and a `$set`/`$unset` to a nested jsonb
expression. The model has the JSON tree, an SQL syntax tree with three-valued evaluation and an
error value for failed casts, token printers and parsers for conditions and for update
expressions. `Filter.Matches` says what a filter means without mentioning SQL, and
`SetUnset.Update` what an update means without an order. The builder class with its loops and
growing argument list is proved to emit exactly the printed translation; the translation is
proved to mean the filter; both texts are proved to parse back; and `Statements.SetFields` joins
the two compilers over one argument list. `FilterLiterals` says for each operator, written out,
which rows it selects, and `StoredValues` what a reader finds at each path after an update.
Casts, text forms, regular expressions and containment are arbitrary functions (`Sql.Pg`), so
the results hold for whatever PostgreSQL makes of them.

**Managed databases and clusters** (`NetShare`, `NetShareRuns`, `NetShareSweeps`, `Kamaji`,
`KamajiRuns`, `KamajiSweeps`). Creating a database writes a marker secret, then shares the
customer's network, then writes an auth secret and the Application; deleting removes the
Application only, and a sweep later revokes the share and reaps the marker. `Cluster` is that
code with every failure; `NetShareRuns` is a transition system in which any number of creates
(crashing or failing after any step, with a remote write that may have landed all the same),
deletes, cascades, load balancers and sweep passes over stale listings interleave freely. The
`Sweeps` modules give the exact condition of every effect of a sweep and the way to finish a
database from any state. Kubernetes clusters run the same protocol with credentials in place of
network shares.

**Bucket policies** (`Policy`, `PolicyRuns`, `PolicyAccess`, `PolicyEditing`, `BucketRuns`).
Website, public access, per-user grants and the customer share one policy document, edited by
read-modify-write and keyed on statement ids. It refines a record of two flags, a grant map and
a customer list, whatever remote calls fail or lose their answers, and that record decides who
may do what.

**Customer access** (`Access`, `AccessValues`, `AccessRuns`). The list check, the names derived
from customer identifiers, effective owners and role memberships, and the order in which
password secrets and chart values are written, together with the sweep that works on the same
secrets.

**Resource cache** (`Cache`), **autoscaler** (`Autoscale`), **document ids** (`Ids`) and
**canonical query strings** (`Query`).

What the code mutates is a class or an array here, and what it loops over is a loop: each method is
proved equal to a function of its inputs or its old state, and the results are lemmas about that
function, over all inputs and all runs.

## What the code does not do as described

The model follows the code in each of these; where that makes a promised property conditional, the
exact condition is proved.

- A share is not always recorded. A sweep may reap an orphan without revoking because a create on
  the same network is in its grace window; if that create's share step then fails, its own marker
  is rolled back and nothing records the share (`NetShareRuns.RollbackLosesShare`). This needs the
  interleaving between the marker and the failed share step; that step itself is atomic.
- A namespace deletion can lose the marker of a database that the same pass found alive and that
  was deleted, cascade and all, before the pass looked at the Applications
  (`NetShareRuns.GcLosesShareFromEmpty`); the cluster sweep loses a credential in the same way
  (`KamajiRuns.GcLosesCredential`). `SharesAreRecorded` and `CredentialsAreKept` give the exact
  conditions over whole runs.
- After a create that reports an error although its Application was written, the caller's unwind
  looks only at other databases: a share the create made is revoked under that Application unless a
  sibling is seen (`NetShareRuns.UnwindCutsOff`, and `ApplicationsStayShared` for the exact
  condition). The cluster unwind revokes the credential unconditionally
  (`KamajiRuns.UnwindStrandsCluster`, `CredentialsStayUsable`).
- A database user called `net_share`, or ending in `_net_share`, is accepted. Its password secret
  carries the suffix by which the sweep recognises markers, so once aged it is deleted, and with it
  the secret of a user `auth` (`AccessRuns.SweepsSpareExactly`, `NeighbourLosesToo`).
- The mapping of a user name to a Kubernetes object name leaves a trailing hyphen for a name that
  ends in an underscore, which the list check accepts and no object name may have
  (`Access.ObjectNamesFit`).
- `$regex` on `_id` reads a document field that inserts and replacements strip, so it selects
  nothing. A partial update with a top-level key `id` does not strip it
  (`Statements.UpdateKeepsStored`).
- An operator map of `$options` alone renders an empty condition.
- The comment at the head of the filter compiler calls `$regex` and `$elemMatch` unsupported; the
  code translates both, as a regular expression match and as containment of a one-element array,
  and so does the model.
- The dotted sets of `setUnsetSQL` depend on Go's map order exactly when one dotted key lies below
  another.
- `isOpMap` looks at one key of an unordered map, which is harmless: a map of both kinds is an error
  either way.
- A tick of the autoscaler lowers a size that is above its ceiling to the ceiling when its target is
  higher still and another dimension grows in the same tick.
- The query encoding encodes a byte from 128 up twice over. It is still injective.
- Archiving a resource without an id adds a history record every time, and the recreation guard
  never matches an empty service or external id.
- A policy user named with the suffix `-Objects` would overwrite another user's statement; the
  pattern for key names excludes it.
- Enabling a website that is already enabled deletes its configuration when the policy cannot be
  written, while the statement that publishes the objects stays; so does a disable whose policy
  write fails (`BucketRuns.EnableAgainStrips`, `DisableStrips`, `PublishedIsConfigured`).

## Model

| member | source | states |
|---|---|---|
| FilterCorrect.TranslationCorrect | internal/pgdoc/filter.go:20-207 | For every filter the translator accepts, every row and every position of the arguments: where all casts the condition makes are defined on the row it raises no error and is TRUE under three-valued logic exactly when the row matches the conventions (nil is absent or null, `$ne`/`$nin` also match absent fields), through any nesting of `$and`/`$or`; where one is not, the model takes the error that PostgreSQL may raise |
| FilterCorrect.DocOpCorrect | internal/pgdoc/filter.go:144-207 | One operator on one document path means what the convention says, error cases included |
| FilterCorrect.IdCorrect | internal/pgdoc/filter.go:222-257 | The operators on `_id`/`id` compare the id column |
| FilterCorrect.AbsentOrNullCorrect | internal/pgdoc/filter.go:148-162 | `{f: nil}` is two-valued: TRUE on an absent field and on JSON null, FALSE otherwise |
| FilterCorrect.ComparisonCorrect | internal/pgdoc/filter.go:328-370 | Typed comparison and IS DISTINCT FROM agree with equality and order of the cast field; an absent field is unequal to everything |
| FilterCorrect.MembershipCorrect | internal/pgdoc/filter.go:259-292 | `$in` is TRUE exactly on membership, `$nin` exactly on non-membership or absence |
| FilterCorrect.InListMeaning | internal/pgdoc/filter.go:259-326 | A list is read as numbers or as text, and array membership is membership in the list |
| FilterText.FilterShape | internal/pgdoc/filter.go:45-135 | The placeholders of a translated filter are the next consecutive numbers in text order, one per argument; the parts are properly parenthesised if and only if no operator map is `$options` alone |
| FilterText.TextReadsBack | internal/pgdoc/filter.go:45-104 | Under SQL precedence the emitted text parses back to the intended condition, and so does the text followed by AND and a further condition: no OR is exposed |
| SqlText.ReadsBack | internal/pgdoc/filter.go:45-207 | Printing and parsing: every canonical condition, followed by anything that may follow it, parses back to itself with the rest unread |
| WhereBuilding.WhereBuilder.Filter | internal/pgdoc/filter.go:45-104 | The recursive builder, its loops and its growing argument list produce exactly the text and arguments of the translation, or an error exactly when it has one; the key order is a function of the key set |
| WhereBuilding.WhereBuilder.Keys | internal/pgdoc/filter.go:45-104 | The loop over the sorted keys emits the conjunction of the keys done so far |
| WhereBuilding.WhereBuilder.Key | internal/pgdoc/filter.go:55-100 | One key: `$and`, `$or` or a field |
| WhereBuilding.WhereBuilder.Subs | internal/pgdoc/filter.go:57-96 | Each sub-filter in parentheses, joined by the connective, arguments in order |
| WhereBuilding.WhereBuilder.Field | internal/pgdoc/filter.go:106-142 | Equality or a whole operator map, whichever key of the map is looked at |
| WhereBuilding.MixedFails | internal/pgdoc/filter.go:106-142 | A map that mixes operators and fields is an error whichever of its keys decides |
| WhereBuilding.WhereBuilder.Entries | internal/pgdoc/filter.go:106-135 | The operators of a map in sorted order joined by AND; nothing but `$options` gives an empty condition |
| WhereBuilding.WhereBuilder.DocOp | internal/pgdoc/filter.go:144-207 | Text and argument of one operator, as translated |
| WhereBuilding.WhereBuilder.RegexOp | internal/pgdoc/filter.go:210-220 | Text and argument of `$regex` with its options |
| WhereBuilding.WhereBuilder.IdOp | internal/pgdoc/filter.go:222-257 | Text and argument of one operator on the id column, with its type errors |
| WhereBuilding.WhereBuilder.Bind | internal/pgdoc/filter.go:372-375 | The argument is appended and its placeholder is its one-based position |
| FilterLiterals.NumbersSelect | internal/pgdoc/filter.go:144-178 | A filter written out, from the map to the rows: on a field that reads as a number, `$eq`, `$ne`, `$gt`, `$gte`, `$lt`, `$lte` and a plain value select exactly the rows whose number is equal, unequal, greater, and so on |
| FilterLiterals.StoredNumbersSelect | internal/pgdoc/filter.go:144-178 | The same on a stored JSON number |
| FilterLiterals.TimesSelect | internal/pgdoc/filter.go:144-178 | The same of instants |
| FilterLiterals.TextsSelect | internal/pgdoc/filter.go:144-178 | The same of texts and booleans; equality is identity, order the collation |
| FilterLiterals.StoredTexts | internal/pgdoc/filter.go:378-383 | What the text of a stored string or boolean is, and that exactly absent and null fields have none |
| FilterLiterals.MissingSelects | internal/pgdoc/filter.go:144-178 | A row without the field, or with JSON null in it, fails every comparison with a scalar but `$ne` |
| FilterLiterals.PresenceSelects | internal/pgdoc/filter.go:144-188 | A nil value selects absent and JSON null, its `$ne` the others, `$exists` absence alone |
| FilterLiterals.TextListsSelect | internal/pgdoc/filter.go:189-198 | `$in` and `$nin` over strings, in either Go list type, select by membership; absent fields are not in |
| FilterLiterals.NumberListsSelect | internal/pgdoc/filter.go:189-198 | The same over numbers |
| FilterLiterals.ContainsSelects | internal/pgdoc/filter.go:199-203 | `$contains` and `$elemMatch` select by containment of the array that holds the value |
| FilterLiterals.RegexSelects | internal/pgdoc/filter.go:210-220 | `$regex` selects by a match of the text of the field, ignoring case exactly when the options hold an `i` |
| FilterLiterals.IdSelects | internal/pgdoc/filter.go:222-245 | The six comparisons on `_id` and `id` select by the id of the row |
| FilterLiterals.IdListsSelect | internal/pgdoc/filter.go:246-254 | `$in` and `$nin` on the id select by membership of the id |
| FilterLiterals.IdRefuses | internal/pgdoc/filter.go:222-257 | On the id anything but a string is refused, and so are presence and containment |
| FilterLiterals.UnknownRefused | internal/pgdoc/filter.go:88-207 | Every other operator is refused, and every other top-level key that starts with a dollar sign |
| FilterLiterals.FieldsAccepted | internal/pgdoc/filter.go:144-207 | Exactly which values each operator is accepted with on a document field |
| FilterLiterals.WrongValuesRefused | internal/pgdoc/filter.go:57-87 | `$regex` takes a string only, and the connectives a list of filters that is not empty |
| FilterLiterals.ConnectivesSelect | internal/pgdoc/filter.go:57-87 | `$or` selects the rows that some of its filters selects, `$and` those that all of them select |
| Ordering.CollectSorted | internal/pgdoc/filter.go:46-51 | Collecting map keys in any iteration order and sorting them gives one list, determined by the key set |
| Ordering.SortCanonical | internal/pgdoc/filter.go:46-51 | Two lists sort to the same list if and only if they are permutations of each other |
| Sql.PathLitRoundTrip | internal/pgdoc/filter.go:399-405 | A path literal, read by the rules for array literals, gives back the components written if and only if each can stand unquoted: not empty, no comma or brace, no white space at its ends, not the word NULL |
| Sql.QuoteLitScansBack | internal/pgdoc/filter.go:395-397 | Whatever a field name holds, a quoted literal scans back as that name and ends where it was ended |
| Sql.ExtractionReadsField | internal/pgdoc/filter.go:378-393 | The text and the json extraction read the field that the dotted path names |
| Base.SplitJoin | internal/pgdoc/filter.go:378-393 | Splitting a dotted path loses nothing |
| Statements.RegexOnIdReadsDocument | internal/pgdoc/filter.go:210-220 | `$regex` on the id reads a document field of that name: NULL on every document stored without one, and on any row in agreement with the convention exactly when field and id match the pattern alike |
| Statements.UpdateKeepsStored | internal/pgdoc/store.go:179-254 | A document without an id field is still without one after an update if and only if every set key that is `id` or `_id` is also unset |
| Statements.TextEqualityIsJsonEquality | internal/pgdoc/filter.go:328-370 | Where field and value are of one kind, text equality is equality of JSON values; across kinds boolean true equals the string "true" |
| UpdateSql.SetUnsetSQL | internal/pgdoc/store.go:179-216 | For every set map and unset list the text built, with its arguments, computes on every document the outcome for the order in which the map was iterated, errors included; it fails exactly when a value has no JSON form; its placeholders are the next consecutive numbers |
| UpdateOrder.OrderFreeExactly | internal/pgdoc/store.go:179-200 | The dotted sets, and every whole call without unsets, have one outcome for all iteration orders on every document if and only if no dotted key lies below another |
| UpdateOrder.OutcomeIsUpdate | internal/pgdoc/store.go:179-216 | With prefix-free keys every iteration order gives the reference (dotted sets, then top-level sets, then unsets), or an error exactly when an array is in the way of a path |
| UpdateOrder.NestedKeysDisagree | internal/pgdoc/store.go:179-200 | For a key below another: a document, and two iteration orders with different outcomes on it |
| UpdateSql.DocReadsBack | internal/pgdoc/store.go:179-216 | Every update expression parses back from its text, whatever follows it |
| UpdateSql.DottedSQL | internal/pgdoc/store.go:182-200 | The loop over the set map folds dotted keys into the text in the order it meets them and puts top-level keys aside |
| UpdateSql.UnsetSQL | internal/pgdoc/store.go:201-216 | Dotted unsets path by path, top-level unsets in one array |
| SetUnset.SetOneMore | internal/pgdoc/store.go:182-200 | Setting one more path, prefix-free from the others, extends the simultaneous update of all of them |
| SetUnset.RemoveOneMore | internal/pgdoc/store.go:201-216 | Removing one more path extends the simultaneous removal |
| SetUnset.RemoveFlat | internal/pgdoc/store.go:201-216 | Removing several top-level keys at once is removing them all |
| SetUnset.NestedOrderMatters | internal/pgdoc/store.go:182-200 | Where no array is in the way, two sets at nested paths commute if and only if the upper value already absorbs the lower one |
| Statements.SetFields | internal/pgdoc/store.go:220-254 | The whole UPDATE, one argument list shared by update and filter: both texts are parsed, and on any row exactly the matching rows get the outcome of the update |
| Statements.PerformsUpdate | internal/pgdoc/store.go:220-254 | With prefix-free set keys a matching row gets exactly the reference document, unless an array is in the way of a path |
| StoredValues.ReadsBack | internal/pgdoc/codec.go:81-97 | The stored form of every value that has one reads back as the value up to its Go kind, maps key by key and lists in order |
| StoredValues.EncodableExactly | internal/pgdoc/codec.go:81-97 | A value has a stored form if and only if nothing inside it lacks one, at any depth |
| StoredValues.ReaderFinds | internal/pgdoc/store.go:182-200 | After a matching `SetFields` a field that was set reads back whole, and each inner key and each list element is the stored form of the one given |
| StoredValues.TopKeyHolds | internal/pgdoc/store.go:182-200 | In every iteration order a top-level set key holds the stored form of its value, at every path below it |
| StoredValues.DottedKeyHolds | internal/pgdoc/store.go:182-192 | In every iteration order the path of a dotted key apart from the others holds its value if and only if all parents are objects, and is as it was otherwise |
| StoredValues.UnsetIsGone | internal/pgdoc/store.go:201-214 | What is unset is gone with everything below it, set in the same call or not |
| StoredValues.OthersKeep | internal/pgdoc/store.go:179-216 | What no set and no unset touches stays as it was |
| Statements.DistinctSelects | internal/pgdoc/store.go:480-488 | The filter text with `AND field IS NOT NULL` appended selects exactly the matching rows whose field has a value |
| NetShareRuns.SharesStay | internal/cloud/dbaas/service.go:122-196 | Over every interleaving, every Application and every auth secret has its marker, and a database whose share step is done, and whose create did not report an error, keeps its network shared while it is in its grace window or has an Application, whatever sweeps finalize on the same network |
| NetShareRuns.ApplicationsStayShared | internal/platform/project/cloud_dbaas.go:103-130 | Every Application, also one whose create reported an error, has its network shared in every state of a run if and only if no unwind of the run meets an Application of its own create, with a share that create made and no other database on the network |
| NetShareRuns.UnwindCutsOff | internal/platform/project/cloud_dbaas.go:103-130 | A whole run from an empty cluster on which an unwind revokes the share under an Application that is there |
| NetShareRuns.SharesAreRecorded | internal/cloud/dbaas/service.go:276-370 | Every share has a marker in every state of a run if and only if each marker rollback and each namespace deletion of the run was covered by another record; sweeps, crashes and deletes never lose one |
| NetShareRuns.StepKeeps | internal/cloud/dbaas/service.go:122-468 | Every single step keeps the invariant |
| NetShareRuns.StepRecorded | internal/cloud/dbaas/service.go:122-468 | A single step keeps every share recorded if and only if it is covered |
| NetShareRuns.NamespaceCollected | internal/cloud/dbaas/service.go:440-468 | A namespace is deleted only when no Application and no foreign managed secret remains; the only markers lost are aged ones of databases that the pass itself found alive, so none if it found none |
| NetShareRuns.GcFindsOnlyAlive | internal/cloud/dbaas/service.go:349-370 | At a namespace deletion every remaining marker is aged and was found alive by the same pass |
| NetShareSweeps.MarkerGoesAway | internal/cloud/dbaas/service.go:276-370 | At any point of any run a marker goes away only by the rollback of its own share step, by a sweep that found its database half an hour old with neither Application nor load balancer, or with the namespace; while the load balancer is up only with the namespace, unless a load balancer of that name was there before the run |
| NetShareSweeps.Converges | internal/cloud/dbaas/service.go:113-121 | From every state of every run, a half-finished create included, a database can be finished: its Application deleted, its cascade and half an hour later one sweep leaves nothing of it, touches no other database and takes the share unless another one needs the network |
| NetShareSweeps.FinalizeExactly | internal/cloud/dbaas/service.go:282-347 | One sweep step: the exact condition for each effect on markers, auth secrets and shares, for every failure |
| NetShareSweeps.PassCounts | internal/cloud/dbaas/service.go:282-347 | The exact condition for each count of the pass, and when it stops |
| NetShareSweeps.BalancerHolds | internal/cloud/dbaas/service.go:301-316 | While its load balancer is there, finalizing a database changes nothing and reaps nothing, whatever else goes wrong |
| NetShareSweeps.GcExactly | internal/cloud/dbaas/service.go:349-468 | Exactly when the namespace is deleted, and what goes with it |
| NetShareSweeps.HistoriesTell | internal/cloud/dbaas/service.go:139-151 | The histories of the model are the share steps taken, those that made the share, and the creates that reported an error |
| NetShareRuns.SiblingIsSeen | internal/cloud/dbaas/service.go:381-424 | A database that needs its network is seen by `networkInUse` on behalf of any other |
| NetShareRuns.RollbackLosesShare | internal/cloud/dbaas/service.go:144-150 | A run on which the record is lost: a sweep reaps an orphan because a create on its network is young, and that create then fails and rolls its marker back |
| NetShareRuns.LoneOrphanArises | internal/cloud/dbaas/service.go:122-196 | The situation that run starts from is reachable |
| NetShareRuns.GcLosesShareFromEmpty | internal/cloud/dbaas/service.go:349-370 | A whole run from an empty cluster on which a namespace deletion loses the record of a database that its pass found alive |
| NetShareRuns.CreateIsRun | internal/cloud/dbaas/service.go:122-196 | An undisturbed create, failing anywhere, is a run of the transition system |
| NetShareRuns.SweepIsRun | internal/cloud/dbaas/service.go:276-348 | An undisturbed sweep of the markers is a run of the transition system, with the same counts |
| NetShareRuns.PassIsRun | internal/cloud/dbaas/service.go:276-370 | The whole undisturbed pass is a run that ends in the state the pass ends in, the namespace deletion included, and deletes the namespace only when no marker is left |
| NetShare.SweepConverges | internal/cloud/dbaas/service.go:276-424 | One undisturbed pass over a settled namespace, in any order, leaves exactly the markers and auth secrets of live databases and exactly their networks shared |
| NetShare.CreateLeaves | internal/cloud/dbaas/service.go:122-196 | When an Application is there its marker, its share, the auth secret its engine needs and the object store credentials its values name are there; a restore without an object store leaves none |
| NetShare.Cluster.CreateDatabase | internal/cloud/dbaas/service.go:122-196 | Marker, share, auth secret, backup secret, Application: for every failing step the exact state left behind |
| NetShare.Cluster.DeleteDatabase | internal/cloud/dbaas/service.go:204-218 | Only an Application of the service itself is marked for deletion, an absent one is no error, and what every failure leaves |
| NetShare.Cluster.NetworkInUse | internal/cloud/dbaas/service.go:381-424 | The two scans answer whether a live sibling Application or a young or backed sibling marker rides the network |
| NetShare.Cluster.FinalizeMarker | internal/cloud/dbaas/service.go:282-347 | The check, revoke and reap of one marker, with every failure; with its load balancer there nothing changes and nothing is reaped |
| NetShare.Cluster.FinalizeNamespace | internal/cloud/dbaas/service.go:276-370 | The loop over the listing with its counters and early exits, and when the namespace is deleted, failing reads and a failing or unanswered deletion included |
| KamajiRuns.SecretsStayUsable | internal/cloud/kamaji/service.go:89-147 | Over every interleaving, while an Application, control plane or machine deployment of a cluster remains, its cloud secret is present and (unless its create reported an error) the recorded credential is unrevoked |
| KamajiRuns.CredentialsStayUsable | internal/platform/project/cloud_kamaji.go:130-150 | Every cluster of which anything remains, also one whose create reported an error, has an unrevoked credential in every state of a run if and only if no unwind of the run meets a cluster with a credential of which something remains |
| KamajiRuns.UnwindStrandsCluster | internal/platform/project/cloud_kamaji.go:130-150 | A whole run from an empty cluster on which an unwind revokes the credential of a cluster that is there |
| KamajiRuns.CredentialsAreKept | internal/cloud/kamaji/service.go:205-323 | A secret recording a credential is removed only after a successful revoke, in every state of a run, if and only if every namespace deletion of the run was covered |
| KamajiRuns.StepKeeps | internal/cloud/kamaji/service.go:89-323 | Every single step keeps the invariant |
| KamajiRuns.StepKept | internal/cloud/kamaji/service.go:205-323 | A single step removes no unrevoked record if and only if it is covered |
| KamajiRuns.GcFindsOnlyAlive | internal/cloud/kamaji/service.go:265-323 | At a namespace deletion nothing remains of any cluster, and every secret left was found alive by the same pass |
| KamajiSweeps.SecretGoesAway | internal/cloud/kamaji/service.go:205-323 | At any point of any run the secret of a cluster goes away only when nothing of the cluster remains, by a sweep that revoked its credential first or with the namespace |
| KamajiSweeps.Converges | internal/cloud/kamaji/service.go:198-280 | From every state of every run a cluster can be finished: its Application deleted, its cascade and half an hour later one sweep revokes its credential, reaps its secret and touches no other |
| KamajiSweeps.FinalizeExactly | internal/cloud/kamaji/service.go:212-263 | One sweep step: the exact condition for each effect on secrets and credentials, for every failure |
| KamajiSweeps.PassCounts | internal/cloud/kamaji/service.go:212-264 | The exact condition for each count of the pass, and when it stops |
| KamajiSweeps.GcExactly | internal/cloud/kamaji/service.go:265-323 | Exactly when the namespace is deleted, and what goes with it |
| KamajiRuns.GcLosesCredential | internal/cloud/kamaji/service.go:265-323 | A whole run from an empty cluster on which a namespace deletion loses an unrevoked credential |
| KamajiRuns.CreateIsRun | internal/cloud/kamaji/service.go:89-131 | An undisturbed create, failing anywhere, is a run of the transition system |
| KamajiRuns.SweepIsRun | internal/cloud/kamaji/service.go:205-264 | An undisturbed sweep of the secrets is a run, with the same counts |
| KamajiRuns.PassIsRun | internal/cloud/kamaji/service.go:205-323 | The whole undisturbed pass is a run that ends in the state the pass ends in, the namespace deletion included, and deletes the namespace only when no secret is left |
| Kamaji.ManagementCluster.CreateCluster | internal/cloud/kamaji/service.go:89-131 | Secret first, then Application, with the state each failure leaves |
| Kamaji.ManagementCluster.DeleteCluster | internal/cloud/kamaji/service.go:133-147 | Only an Application of the service itself is marked for deletion, an absent one is no error, and what every failure leaves |
| Kamaji.ManagementCluster.FindTCP | internal/cloud/kamaji/service.go:563-573 | The object found is one of the cluster, the one of the derived name if there is one; none is found only when no object at all carries that name or the label of the cluster |
| Kamaji.ManagementCluster.FinalizeSecret | internal/cloud/kamaji/service.go:212-263 | One secret: probes, revoke, delete, with every failure |
| Kamaji.ManagementCluster.FinalizeNamespace | internal/cloud/kamaji/service.go:205-323 | The loop over the listing and when the namespace is deleted, failing reads and a failing or unanswered deletion included |
| PolicyRuns.DocumentRefinesRecord | internal/cloud/client/objectstore_ceph_policy.go:131-443 | Over every run of website on/off, public on/off, grant, revoke and custom-policy replace, with failures anywhere: customer statements verbatim and in order, each Stratos Sid at most once, and under each exactly the statement the abstract record calls for |
| PolicyRuns.StepRefines | internal/cloud/client/objectstore_ceph_policy.go:206-443 | Every document edit is the edit of the record |
| PolicyRuns.ReadableExactly | internal/cloud/client/objectstore_ceph_policy.go:191-239 | For every way of matching statements (wildcards, conditions, exceptions): objects are anonymously readable exactly when the website or the public flag is on or a customer statement allows it, and no customer statement denies it |
| PolicyAccess.AccessAfterCalls | internal/cloud/client/objectstore_ceph_policy.go:241-320 | Who may do what after any run of calls at any failure, however the customer statements are matched: a user may make a request exactly when the level last granted to it and not revoked is one the request needs, or the request reads an object and the website or the public flag is on, or a customer statement allows it, and no customer statement denies it |
| PolicyAccess.AccessAfterRun | internal/cloud/client/objectstore_ceph_policy.go:241-320 | The same of runs on the document |
| PolicyAccess.MayExactly | internal/cloud/client/objectstore_ceph_policy.go:241-288 | The same of one document: GetObject for every level, PutObject, DeleteObject and the two multipart actions from READ_WRITE up, ListBucket and GetBucketLocation on the bucket for every level, everything else for FULL, and nothing through a grant for anyone else |
| PolicyRuns.HasAnonymousRead | internal/cloud/client/objectstore_ceph_policy.go:228-239 | The scan answers whether one of the two flags is on |
| PolicyRuns.ListBucketGrants | internal/cloud/client/objectstore_ceph_policy.go:329-349 | The loop lists the granted users with their levels |
| PolicyRuns.ListingIsExact | internal/cloud/client/objectstore_ceph_policy.go:329-349 | The listing holds exactly the granted users, each once, with its level |
| PolicyRuns.ListingAfterRun | internal/cloud/client/objectstore_ceph_policy.go:290-349 | After any run the listing holds exactly the last-granted level of each user not revoked since |
| PolicyRuns.SuffixedUserOverwrites | internal/cloud/client/objectstore_ceph_policy.go:269-307 | A grant to a user named with the `-Objects` suffix overwrites the object statement of the user without it |
| Policy.OwnSids | internal/cloud/client/objectstore_ceph_policy.go:20-35 | Which statements are owned by Stratos, and the Sids of a grant, written out |
| Policy.GrantSidsDisjoint | internal/cloud/client/objectstore_ceph_policy.go:269-288 | The Sids of two users are disjoint if and only if the users differ and neither is the other plus `-Objects` |
| Policy.KeyUidIsPlain | internal/cloud/cephcred/s3key.go:24-33 | Every uid made from a valid key name is free of the suffix |
| Policy.ListedSids | internal/cloud/client/objectstore_ceph_policy.go:329-349 | The suffix test of the listing skips the bucket statement of exactly the suffixed users |
| Policy.PermissionRoundTrip | internal/cloud/client/objectstore_ceph_policy.go:251-363 | The level read back from a grant statement is the level written |
| Policy.UpsertEffect | internal/cloud/client/objectstore_ceph_policy.go:131-141 | An upsert changes what is found under one Sid, keeps Sids unique and leaves the customer statements as they are |
| Policy.RemoveEffect | internal/cloud/client/objectstore_ceph_policy.go:143-152 | A removal does the same |
| PolicyEditing.Document.UpsertStmt | internal/cloud/client/objectstore_ceph_policy.go:131-141 | The in-place loop is the upsert |
| PolicyEditing.Document.RemoveStmt | internal/cloud/client/objectstore_ceph_policy.go:143-152 | The in-place loop is the removal and reports whether there was one |
| PolicyEditing.Select | internal/cloud/client/objectstore_ceph_policy.go:154-162 | The filter loop keeps exactly the statements of one owner, in order |
| PolicyEditing.CephBucket.PutPolicyDoc | internal/cloud/client/objectstore_ceph_policy.go:109-129 | An empty document deletes the policy; a refused write leaves the old one, and one whose answer is lost does not |
| PolicyEditing.CephBucket.SetPublicRead | internal/cloud/client/objectstore_ceph_policy.go:206-226 | The document after the public toggle; exactly when the call succeeds, for every failing or unanswered remote call |
| PolicyEditing.CephBucket.GrantBucketAccess | internal/cloud/client/objectstore_ceph_policy.go:290-307 | The document after the grant; exactly when the call succeeds, for every failing or unanswered remote call |
| PolicyEditing.CephBucket.RevokeBucketAccess | internal/cloud/client/objectstore_ceph_policy.go:309-320 | The document after the revoke; exactly when the call succeeds, for every failing or unanswered remote call |
| PolicyEditing.CephBucket.SetBucketPolicy | internal/cloud/client/objectstore_ceph_policy.go:390-443 | The customer statements are replaced, the Stratos statements carried over, reserved Sids in the input dropped; an input without statements is refused, and version and id come from the input; exactly when the call succeeds, for every failing or unanswered remote call |
| PolicyEditing.CephBucket.SetBucketRead | internal/cloud/client/objectstore_ceph.go:595-608 | ACL first, then policy; exactly when the call succeeds, for every failing or unanswered remote call |
| PolicyEditing.CephBucket.EnableWebsite | internal/cloud/client/objectstore_ceph.go:640-676 | Website configuration first, policy last; if the policy cannot be written the configuration is deleted, also one that was there before; exactly when the call succeeds, for every failing or unanswered remote call |
| PolicyEditing.CephBucket.DisableWebsite | internal/cloud/client/objectstore_ceph.go:678-694 | Configuration removed, then the statement; exactly when the call succeeds, for every failing or unanswered remote call |
| BucketRuns.CallIsEvent | internal/cloud/client/objectstore_ceph_policy.go:87-129 | Every call edits the stored statements as its operation says or leaves the policy alone; a written document keeps its id and version or takes those given, with the current version for none, and a document without statements is no policy |
| BucketRuns.CallMeans | internal/cloud/client/objectstore_ceph_policy.go:206-443 | What each call asks of the document, and exactly when it is written |
| BucketRuns.CallsRefineRecord | internal/cloud/client/objectstore_ceph_policy.go:131-443 | Whatever calls are made, and whatever of their remote calls fail or lose their answers, the stored document refines the record of the writes that landed |
| BucketRuns.PublishedIsConfigured | internal/cloud/client/objectstore_ceph.go:640-694 | Over every run of calls a bucket published as a website has a website configuration at every moment if and only if no call was an enable or a disable that failed half way on a published bucket |
| BucketRuns.EnableAgainStrips | internal/cloud/client/objectstore_ceph.go:640-676 | A run: a second enable whose policy write is refused deletes the configuration while the objects stay published |
| BucketRuns.DisableStrips | internal/cloud/client/objectstore_ceph.go:678-694 | A run: a disable whose policy write is refused does the same |
| Access.ValidateAccess | internal/cloud/dbaas/config.go:652-729 | Accepts exactly the acceptable lists, roles included |
| Access.ValidateOSRoles | internal/cloud/dbaas/config.go:590-618 | Accepts exactly valid, distinct, not built-in roles with valid patterns and offered actions |
| Access.CheckUsers | internal/cloud/dbaas/config.go:674-694 | Accepts exactly valid, unreserved, pairwise distinct users with offered roles |
| Access.CheckDatabases | internal/cloud/dbaas/config.go:695-708 | Accepts exactly valid, unreserved, pairwise distinct databases whose owner is blank or listed |
| Access.CheckGrants | internal/cloud/dbaas/config.go:709-728 | Accepts exactly when every granted database is listed and all derived grant keys are distinct |
| Access.DerivedNamesDistinct | internal/cloud/dbaas/config.go:652-729 | In an accepted list all derived grant object names, and all password secret names, are pairwise distinct |
| Access.ObjectNamesFit | internal/cloud/dbaas/config.go:89-104 | The derived name of a password secret is a Kubernetes object name if and only if the user name does not end in an underscore, that of a grant if and only if the database name does not |
| Access.AcceptedNamesAreFree | internal/cloud/dbaas/config.go:652-729 | In an accepted list every name has the plain shape and is none of the twelve reserved ones, nothing is listed twice, owners and grants refer to the list, and Valkey has no databases |
| Access.SingleName | internal/cloud/dbaas/config.go:106-125 | Which names the check takes, written out |
| Access.SingleRole | internal/cloud/dbaas/config.go:544-552 | Which roles may be given without being declared, written out |
| Access.SingleAction | internal/cloud/dbaas/config.go:582-618 | Which roles may be declared: names, patterns and actions, written out |
| Access.K8sNameInjective | internal/cloud/dbaas/config.go:95-103 | Hyphen-free names can be read back from their mapped form |
| Access.UserSecretsDistinct | internal/cloud/dbaas/config.go:89-112 | Password secrets of two valid users coincide exactly when the users do |
| Access.GrantKeysCollide | internal/cloud/dbaas/config.go:710-729 | Without the guard two grants can share a derived name |
| Access.UserSecretLooksLikeMarker | internal/cloud/dbaas/config.go:89-133 | A password secret carries the marker suffix exactly for users called `net_share` or `..._net_share` |
| AccessRuns.SweepsSpareExactly | internal/cloud/dbaas/service.go:276-347 | On a new database every history of access changes, each stopping anywhere, and of sweeps keeps the password secret of every live user if and only if no user is called like a marker |
| AccessRuns.MarkerLikeLoses | internal/cloud/dbaas/service.go:276-347 | The run: such a user is created, its secret ages, the sweep deletes it |
| AccessRuns.HitIsReaped | internal/cloud/dbaas/service.go:276-347 | The secrets that this sweep takes are exactly those that the marker sweep reaps |
| AccessRuns.NeighbourLosesToo | internal/cloud/dbaas/service.go:328-347 | The sweep that takes the secret of `net_share` takes the secret of the user `auth` with it |
| AccessValues.EffectiveOwners | internal/cloud/dbaas/values.go:259-272 | The declared owner or else the first user asking, for exactly the listed databases |
| AccessValues.OwnerByPosition | internal/cloud/dbaas/values.go:259-272 | The effective owner by position: the last entry of the name, else the first named user that lists the database |
| AccessValues.DatabasesValues | internal/cloud/dbaas/values.go:241-257 | Each database with its effective owner |
| AccessValues.InRoles | internal/cloud/dbaas/values.go:322-355 | The role list of one user: exactly the owners of its databases other than itself, each once |
| AccessValues.UsersValues | internal/cloud/dbaas/values.go:322-355 | Every user with its databases, roles and role memberships |
| AccessValues.GrantsReach | internal/cloud/dbaas/values.go:241-355 | In an accepted list every granted database has a non-blank owner among the users, and each grantee is that owner or a member of its role; memberships are duplicate-free and self-free |
| AccessRuns.CallKeeps | internal/cloud/dbaas/service.go:593-644 | Wherever one call stops, every live user has its password secret and kept users keep theirs unchanged |
| AccessRuns.FinishedCallLeaves | internal/cloud/dbaas/service.go:593-644 | After a finished call exactly the wanted users are live, a new user has the password minted for it, a kept one the secret it had, and a removed one none unless it could not be deleted |
| AccessRuns.HistoryKeeps | internal/cloud/dbaas/service.go:593-644 | Over every sequence of calls, each stopping anywhere, and of sweeps, live users stay backed when none is called like a marker |
| AccessRuns.OthersUntouched | internal/cloud/dbaas/service.go:605-643 | Writing or deleting one secret leaves every other user alone |
| AccessRuns.AccessService.SetAccess | internal/cloud/dbaas/service.go:593-644 | The loops run a prefix of the call script, and succeed exactly when the writes before the deletions do; then every new user has its minted password and no removed and deletable user has a secret |
| AccessRuns.AccessService.WriteSecrets | internal/cloud/dbaas/service.go:605-622 | Secrets for exactly the users that are new, stopping at the first failure |
| AccessRuns.AccessService.DeleteSecrets | internal/cloud/dbaas/service.go:638-643 | Secrets of exactly the users no longer wanted, best effort |
| Cache.CacheIsSound | internal/cloud/repo.go:53-155 | Over every serial run, at most one row per (service, external id), and a creation date once set never changes |
| Cache.GuardOverRuns | internal/cloud/repo.go:248-297 | Over runs from the empty cache: the history holds exactly one record for each archived delete, with its fields, and the recreation guard says yes exactly when an archived delete of that service and external id came after the snapshot; never for an empty service or external id |
| Cache.RowsChangeExactly | internal/cloud/repo.go:53-155 | Each operation, row by row: who takes which fields, what a new row holds, what a stamp fills and what a delete removes |
| Cache.OwnIdsRun | internal/cloud/repo.go:88-123 | Any sequence of operations whose inserts bring ids of their own is a run |
| Cache.UpdateIsOptimistic | internal/cloud/repo.go:125-155 | An update writes exactly a present row that is not newer, never goes back in time and touches no other row |
| Cache.ArchiveIsIdempotent | internal/cloud/repo.go:248-284 | With an id the history holds exactly one record if some delete went through to the archive, however many did, and none otherwise; without an id every one adds a record |
| Cache.CreationDateFixed | internal/cloud/repo.go:53-123 | No operation changes a set creation date or revives a deleted row |
| Cache.WasUserDeletedAfter | internal/cloud/repo.go:286-297 | True exactly when some archived deletion of the pair is later than the snapshot |
| Cache.Repo.InsertResource | internal/cloud/repo.go:88-123 | Upsert on the pair; the stored row is the one returned |
| Cache.Repo.UpdateResource | internal/cloud/repo.go:125-155 | Returns nothing and changes nothing when there is no row or a newer one |
| Cache.Repo.StampCreatedAtIfNull | internal/cloud/repo.go:69-76 | Sets the date only where there is none |
| Cache.Repo.DeleteAndArchive | internal/cloud/repo.go:248-284 | Row first, then the record unless there is one; what a failure of either write leaves |
| Autoscale.RunIsBounded | internal/cloud/dbaas/autoscale.go:92-128 | From sizes within their ceilings every run stays within them, lowers nothing and writes at most as often as there is headroom |
| Autoscale.AfterReaches | internal/cloud/dbaas/autoscale.go:48-128 | From the inputs: an enabled database whose engine can be resized goes to the smaller of recommendation and ceiling, and its volume grows exactly when its engine can grow, a ceiling is set, it is below it and a volume with its id is four fifths full |
| Autoscale.TickReaches | internal/cloud/dbaas/autoscale.go:92-128 | Each size below a positive ceiling and a higher target goes to the smaller of the two, a full volume to the least size a fifth larger or to the ceiling, everything else stays |
| Autoscale.TickLowersExactly | internal/cloud/dbaas/autoscale.go:92-128 | A tick lowers a size if and only if that size and its target are above its ceiling and another dimension grows in the same tick |
| Autoscale.TickCanLower | internal/cloud/dbaas/autoscale.go:92-128 | Such a tick exists |
| Autoscale.DiskGrows | internal/cloud/dbaas/autoscale.go:111-124 | A full volume strictly grows if and only if it is below its ceiling, by a fifth or up to the ceiling |
| Autoscale.AutoscaleTick | internal/cloud/dbaas/autoscale.go:38-138 | Every live database becomes what its own step makes of it, given how it was listed and whether its patch fails; the number returned counts the changed ones |
| Autoscale.TickOne | internal/cloud/dbaas/autoscale.go:48-136 | One database: which advice its listing allows, and what is written to its live values |
| Autoscale.AfterKeeps | internal/cloud/dbaas/autoscale.go:48-136 | Whatever the listing says, a tick keeps a database within its live ceilings and changes nothing but its sizes |
| Autoscale.WorstFill | internal/cloud/dbaas/autoscale.go:73-87 | A volume of the database is at the threshold exactly when the worst fill is |
| Autoscale.VpaTarget | internal/cloud/dbaas/autoscale.go:147-167 | The largest readable recommendation of any container, for cores and for memory, and zero without one |
| Autoscale.MemoryGi | internal/cloud/dbaas/autoscale.go:191-209 | In whatever order the suffixes are tried, the result is the text before the one suffix times its unit, rounded up to whole Gi |
| Autoscale.OneSuffix | internal/cloud/dbaas/autoscale.go:196-204 | A quantity ends in at most one of the suffixes |
| Autoscale.SuffixesMean | internal/cloud/dbaas/autoscale.go:196-209 | The eight suffixes are powers of 1024 and of 1000, in whole Gi rounded up |
| Autoscale.CoresMean | internal/cloud/dbaas/autoscale.go:171-187 | Cores, and thousandths with `m`, in whole cores rounded up |
| Autoscale.ContainsExactly | internal/cloud/dbaas/autoscale.go:76-85 | A volume carries the id exactly when its name is something, the id and something |
| Autoscale.Units | internal/cloud/dbaas/autoscale.go:171-209 | The least whole number that covers the quantity |
| Ids.MintsIncrease | internal/pgdoc/pgdoc.go:109-139 | With a non-decreasing clock below 2^32, the first 2^24 - 2^16 ids of a process are strictly increasing as strings |
| Ids.OrderExactly | internal/pgdoc/pgdoc.go:126-139 | Ids of one process compare as (second mod 2^32, counter mod 2^24) |
| Ids.CoincideExactly | internal/pgdoc/pgdoc.go:126-139 | Two ids coincide exactly when second, process bytes and counter do |
| Ids.MintsCoincide | internal/pgdoc/pgdoc.go:126-139 | Two ids of one run coincide exactly in one second and a multiple of 2^24 mints apart |
| Ids.IdReadsBack | internal/pgdoc/pgdoc.go:126-139 | An id is 24 hexadecimal digits that read back as the second, the five process bytes and the counter |
| Ids.RolloverGoesBack | internal/pgdoc/pgdoc.go:126-139 | The bound is tight |
| Ids.HexOrder | internal/pgdoc/pgdoc.go:138-138 | Hexadecimal text sorts and collides as the bytes do |
| Ids.BigEndianOrder | internal/pgdoc/pgdoc.go:132-137 | Big-endian bytes compare as the numbers do, modulo the span |
| Ids.IdSource.NewID | internal/pgdoc/pgdoc.go:130-139 | The buffer filled byte by byte is the next id of the run |
| Query.CanonicalQueryExactly | pkg/auth/sigv4.go:126-145 | For any two multimaps and iteration orders the canonical queries are equal if and only if the multimaps hold the same pairs equally often |
| Query.CanonicalQuery | pkg/auth/sigv4.go:126-145 | The loops, the sort and the join give one result for every iteration order |
| Query.CanonicalExactly | pkg/auth/sigv4.go:126-145 | Two lists of pairs have one canonical text if and only if they are permutations |
| Query.CanonicalIsSorted | pkg/auth/sigv4.go:126-145 | The canonical text is the pairs in the order of their encoded keys and then values, each as key, equals sign and value, joined by ampersands |
| Query.EncodeRoundTrip | pkg/auth/sigv4.go:148-162 | Encoded text can be read back, so the encoding is injective on all byte strings |
| Query.OneHighByte | pkg/auth/sigv4.go:148-162 | A byte from 128 up becomes the escapes of the two bytes of its code point in UTF-8 |
| Query.EncodeConcat | pkg/auth/sigv4.go:148-162 | Text is encoded byte by byte |
| Query.EncodeAlphabet | pkg/auth/sigv4.go:148-162 | Only the unreserved set of section 2.3 of RFC 3986 and percent signs come out |
| Query.OneCharacter | pkg/auth/sigv4.go:148-162 | A byte below 128 stays if it is unreserved and becomes a percent sign and two upper-case digits otherwise |
| Query.EncodeIsStandard | pkg/auth/sigv4.go:148-162 | The result is the percent-encoding of RFC 3986 if and only if the input is ASCII |
| Query.AwsEncode | pkg/auth/sigv4.go:148-162 | The loop over the bytes with the final plus replacement is that encoding |

## Left out

Assumptions of the results, each stated as a precondition or as a guard of a step:

- FilterCorrect.TranslationCorrect: components of dotted paths can stand unquoted in an array literal (`Sql.PathLitRoundTrip` is exact about that) and are no whole numbers, which index arrays; `$options` comes with `$regex`, and `$regex` is not used on the id (what happens otherwise is `RegexOnIdReadsDocument` and `FilterShape`). Numbers of a list are exact rationals, not float64. An undefined cast is an error here; PostgreSQL may also skip the operand that holds it.
- FilterText.TextReadsBack: for filters without an operator map of `$options` alone; `FilterShape` shows that those are exactly the ones whose text is well formed.
- UpdateSql.SetUnsetSQL: the same of dotted set and unset keys; documents are JSON objects.
- NetShareRuns.SharesStay: writes of a create happen inside the grace window of its marker; database ids are not reused; check, revoke and reap of one marker is one step, and so is a failed share together with its rollback; no create starts between a pass's listing and its namespace deletion, whatever was created or reaped before the listing; one project. A database whose create reported an error is the subject of `ApplicationsStayShared`.
- KamajiRuns.SecretsStayUsable: the same assumptions; credentials of different clusters differ. Clusters whose create reported an error keep their secret; their credential is the subject of `CredentialsStayUsable`.
- PolicyRuns.DocumentRefinesRecord: one writer at a time per bucket; granted users are free of the `-Objects` suffix (`KeyUidIsPlain` shows that every key name gives such a user).
- AccessRuns.SweepsSpareExactly: one `SetAccess` at a time per database; sweeps run between calls, not inside one; no database is called like the beginning of another's user secrets, which the form of database ids rules out.
- Cache.CacheIsSound: serial use; two simultaneous first inserts of one key are not modelled.
- Autoscale.RunIsBounded: sizes are whole numbers and the growth factor is exactly 6/5; the limits in force do not change during a run.
- Ids.MintsIncrease: ids are minted one after another, each with the time it was minted at.

Not modelled:

- PostgreSQL itself: regular expressions, containment, casts and text forms are arbitrary functions; array indices in paths, table indexes, sorting, paging and table creation are absent.
- Why a create fails before its marker is written (validation, the namespace and its policies), and values, charts and passwords.
- Time parsing, decimal formatting and JSON text: a value and its encoding are trees.
- A marker whose creation timestamp does not parse, which the sweep treats as aged; the two names of the load balancer service are one flag.
- Sweeps over several projects, and the grouping of secrets by namespace.
- Server groups of a cluster, node groups, chart versions, kubeconfigs and values patches.
- Bucket policies as JSON text, and the raw fields of a customer statement, which is an opaque value apart from its Sid, principal, actions and resource.
- Validation of index policies.
- How a number in a quantity of the autoscaler is read, an arbitrary function; a failed read counts as no recommendation.
- The parts of signature checking around the canonical query: headers, body hash, keys and clock skew.
- Quotas, backups, billing, connection details, web handlers and configuration.
