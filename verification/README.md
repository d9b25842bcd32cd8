# Verification of the MLS group state machine

A Dafny model of a TypeScript implementation of Messaging Layer Security (MLS,
RFC 9420) and of the delivery service in its realistic demo, with proofs.
`dafny verify dfyconfig.toml` checks everything.

An epoch change is computed by four separate pieces of code: a committer
(`createCommit`), the receivers of the commit (`processCommit`), a newcomer
with a Welcome (`joinGroupWithGroupInfo`) and an external committer
(`joinGroupExternal`). The main result, `Groups.AllAgreeAlways`, follows a
group from `createGroup` through any sequence of proposals, Updates, discards,
commits, removals and joins, each message accepted or refused by any of those
that receive it: all members in step always share one group context, key
schedule, ratchet tree and confirmation tag; each holds exactly the private keys
the tree says it must; and the tree keeps its shape, its key and credential
rules and its parent hashes. `Groups.CommitTakesIff` says who stays in step.

That is about honest commits. Of any others `AcceptedCommits` shows what the
receiver's own checks are for: whoever made a commit and whatever it sealed, a
member that accepts it holds exactly the keys the new tree says it must, can sign
for its leaf, and has a tree that keeps every rule. `ClientRuns.EveryReachableState`
carries this over every run of a client from each of the three ways into a group,
`ClientRuns.OneTagOneEpoch` shows that one confirmation tag means one epoch in any two
runs, and `Secrecy.EpochSecretIff` what the secrecy of a new epoch rests on.

Two sides that compute one thing with one function agree on it whatever it is. So what
each operation computes is also said without its functions, both ways: which lists of
proposals are taken (`AppliedLists.TakesIff`), which pending ones the filter chooses
(`FilterChoices.ChosenIs`), when a commit can be made (`CommitMade.CommitMadeIff`) and a
newcomer comes in (`Acceptance.JoinGroupIff`), what the next epoch's context, transcript
and keys are (`EpochContents.CommitterNext`, `EpochContents.ReceiverNext`), and the octets
of every message (`WireLayout.MessageIs`).

## How it is built

- Trees are sequences of optional nodes (`TreeMath`, `RatchetTree`). A node
  past the end reads as blank, so growing and cutting the array change nothing
  that is read.
- Cryptography is symbolic (`Terms`): deriving, hashing, sealing and signing are
  constructors. Credential policy, lifetimes, key validity and pre-shared keys
  are the fields of one environment (`LeafValidation.Env`), equal for all.
- A state change is a function on values. Where the source loops or writes in
  place there is also a method, proved equal to the function or to what the loop
  is for: `ParentHashCheck`, `UnmergedLeaves`, `LeafValidation`, `Joins`,
  `FilterPending`, `RoomLogic`, `PrivateContents`; on the heap `PathBuffers`,
  `Ratchets` and `Consumed`, over secret buffers with an identity, and `Rooms`, over
  tables.
- `UpdatePaths`, `PrivateKeys` and `KeyOwnership` prove what one path does,
  `Proposals` and `Membership` what one proposal list does, `Agreement`,
  `Convergence`, `Receivers`, `Joiners` and `ExternalJoins` what one honest epoch
  change does, `AcceptedCommits` and `EpochTags` what any accepted one does,
  `Lifecycle`, `UpdateKeys`, `MemberSteps` and `MemberRuns` what a client does over a
  run, `ClientRuns` over a run from its first state, `Groups` what a group does.
- `ProposalRules`, `FilterChoices` and `AppliedLists` speak of a list of proposals itself:
  what makes it valid, what the filter keeps of it, what applying it does.
  `EpochContents`, `CommitMade` and `Acceptance` say what an operation leaves and exactly
  when it succeeds, `GroupExtensions` and `RequirementRuns` what a group's extensions mean
  for its members, in one commit and over a run.
- `Secrecy` is about what can be computed from what is known and what is sent,
  `KeySeparation` about the keys of one epoch and of one path, `RatchetSecrecy` about
  those of one ratchet.
- `ParentHashCheck` is the code's check in terms of the links the code tests,
  `StandardLinks` the same in terms of the links RFC 9420 defines.
- `RoomTables` is what each handler of the demo's room does to its tables, `Rooms`
  the handlers, `RoomRuns` the room under every interleaving: handlers are cut
  where they await something other than storage.
- `Codecs` defines an exact codec: the decoder finds each readable value wherever
  its encoding stands and accepts no other bytes. `Wire`, `WireMessages` and
  `WireBodies` build the structures from exact codecs; each contract says which
  values are readable. `WireLayout` writes out the octets of each.

## Where the code does something else than it says

Each is a lemma with the exact condition and, where a state is needed to show it,
a run that gets there.

- `filterPendingProposals` is meant to drop what cannot be committed, but throws,
  so that the member can make no commit, exactly when the pending Removes name
  every member, or a pending Add matches every member they do not name
  (`FilterPending.FilterThrowsIff`, reached in `ClientRuns.OwnRemovalBlocks`).
- The removed flag is read from the tree after the Adds. A member a commit removes
  is told exactly when the commit's Adds are no more than the leaves before its
  own that are blank or removed too (`Membership.RemovedFlagIff`); otherwise it
  gets an exception (`Receivers.RemovedToldIff`). Replacing a member of a group
  of two is such a commit (`Membership.ReplaceMember`). The former self an
  external resync replaces always gets an exception (`ExternalJoins.ReplacedThrows`).
- `sameNodeIndexSet` compares lengths and membership one way, which is not the set
  equality of section 7.9.2 of RFC 9420 when an unmerged list repeats a leaf. Alone,
  the parent-hash check passes a tree the standard refuses
  (`StandardLinks.HashCheckAlone`), unless the lists it compared name the right nodes
  (`StandardLinks.HashCheckAloneIff`). With the unmerged-leaves rule, which a joiner
  checks too, it passes exactly the standard's trees whose links compare lists of
  equal length (`StandardLinks.StandardVerifiedIff`); a repeat can break that
  (`StandardLinks.RepeatRefused`), and honest trees have none. Nothing checks that the
  lists are sorted, as section 7.1 asks.
- A Welcome is refused for a missing path secret by looking at one ancestor. Without
  one a newcomer can be left short of keys further up
  (`Counterexamples.ShortWelcomeAccepted`); `Joiners.JoinExactIff` says exactly when its
  keys are complete, which no honest Welcome fails (`Joiners.JoinerConverges`).
- `createProposal` with an Update made by hand keeps no private key for it, and is the
  only proposal that leaves its sender without one (`MemberRuns.HandmadeUpdateIff`).
- The alarm says a failed registry call is retried with the whole alarm. The
  retry no longer has the name row, so it does not call, and the expired room
  stays listed live for good (`RoomRuns.FailedMarkStaysLive`). A second create's call
  that lands late does the same (`RoomRuns.LateListing`, `RoomRuns.TwoCreatesReachIt`).
- The extensions of a group are checked against its members when a commit changes them,
  and against whoever is added, but not against the leaf a path brings, nor against an
  Update in a commit that changes none. So a member can stop listing an extension its
  group has (`Counterexamples.SupportDropped`), in these ways and no others
  (`GroupExtensions.AcceptedFits`, `GroupExtensions.CommitterFits`). What the extensions
  require of a leaf every commit keeps (`RequirementRuns.AlwaysRequired`), but neither
  `createGroup` nor an external joiner checks its own leaf for it
  (`RequirementRuns.EntryRequiredIff`).
- An external resync is accepted by its maker for any leaf its equality function
  matches; members refuse one that replaces another signature key's leaf
  (`ExternalJoins.ExternalConverges`, `Counterexamples.ResyncRefused`).
- `encodeUint64` wraps out-of-range values where the other widths throw
  (`Codecs.Uint64Exact`); custom proposals with a type from 1 to 7 and custom
  credentials are encoded and cannot be read back (`Wire.CustomRoundTrip`,
  `Wire.CredentialCodec`).
- `discardPendingProposal` drops a proposal and keeps the key of one's own Update,
  so pending Update keys outgrow `maxPendingProposals` without limit
  (`UpdateKeys.KeysUnbounded`, `ClientRuns.AnyNumberOfKeys`); they are never more than
  the pending proposals and the Updates so discarded (`UpdateKeys.RunKeysBound`).

## Model

| member | source | states |
|---|---|---|
| `TreeMath.ClosedForms` | src/treemath.ts:39-105 | The halving recursions for left, right and parent are the bit operations of the source, stated in powers of two. |
| `TreeMath.IsAncestorIff` | src/treemath.ts:112-146 | Walking the direct path finds exactly the nodes whose subtree contains the start. |
| `RatchetTree.AddLeafAt` | src/ratchet-tree.ts:154-206 | An added leaf takes the first blank leaf or the first new one, every non-blank ancestor lists it, and no other node changes. |
| `RatchetTree.UpdateLeafAt` | src/ratchet-tree.ts:208-224 | An update puts the leaf in its place and blanks exactly its direct path. |
| `RatchetTree.RemoveLeafAt` | src/ratchet-tree.ts:226-264 | A removal blanks the leaf and its direct path; cutting the blank right half changes nothing that is read. |
| `RatchetTree.FilteredChain` | src/ratchet-tree.ts:289-316 | The filtered direct path climbs: each node strictly above the last, all above the leaf. |
| `ParentHashes.WithoutLeavesAt` | src/ratchet-tree.ts:318-338 | Removing unmerged leaves drops those leaves and their listings and leaves every other node. |
| `ParentHashes.AncestorNearest` | src/ratchet-tree.ts:362-367 | Between a node and the ancestor found no non-blank node lies. |
| `UpdatePaths.SamePath` | src/update-path.ts:278-344 | Writing keys and parent hashes on the sender's tree and on a receiver's, which may differ in the sender's leaf, gives the same tree and the same leaf parent hash. |
| `UpdatePaths.HonestPathAccepted` | src/update-path.ts:346-429 | A path made with fresh randomness passes every check of applyUpdatePath and gives the receiver the sender's own new tree, parent hashes included, for members and for an external joiner. |
| `PrivateKeys.CommonAncestor` | src/update-path.ts:431-458 | Where a sender's way up meets another leaf's, the filtered path has an entry, and its resolution covers that leaf. |
| `PrivateKeys.ResolutionReaches` | src/create-commit.ts:692-738 | The resolution above a member always names a node whose key that member must hold. |
| `PrivateKeys.SurvivorCovers` | src/private-key-path.ts:72-104 | Keys that were exact before the proposals still cover the tree after them, for a member that stayed or whose own Update was applied. |
| `PrivateKeys.PathToMapIs` | src/path-secrets.ts:26-33 | The committer's list of path secrets is the walk along the path that receivers make. |
| `KeyOwnership.ReceiverOpens` | src/create-commit.ts:692-738 | Decryptability: every surviving member finds its common ancestor, a ciphertext for a key it holds and the committer's own secret in it, so neither the count mismatch nor "No overlap" arises. |
| `KeyOwnership.WalkFrom` | src/path-secrets.ts:81-100 | Starting anywhere on the path with the right secret gives the committer's remaining secrets, its commit secret, and keys that match the tree's. |
| `KeyOwnership.ReceiverExact` | src/process-messages.ts:637-681 | An honest path is accepted, and gives the receiver the committer's commit secret and exactly the keys it must hold. |
| `KeyOwnership.AcceptedExact` | src/private-key-path.ts:90-120 | Any path a receiver accepts, whoever made it and whatever it sealed, leaves it, merged and pruned, exactly the keys it must hold, since each derived key was compared with the tree's. |
| `KeyOwnership.MergedExact` | src/private-key-path.ts:24-46 | Old keys merged with keys of any path's nodes from the common ancestor up, pruned: exactly the nodes the member owns, each key matching the tree. |
| `KeyOwnership.CommitterExact` | src/create-commit.ts:293-310 | The committer's merged and pruned keys are exact for the new tree, with or without other members to seal to. |
| `KeyOwnership.JoinerExact` | src/private-key-path.ts:48-70 | A joiner's keys are exact from its own leaf key and the one path secret it was sent. |
| `KeyOwnership.JoinerWithoutPath` | src/client-state.ts:1561-1581 | With no path a joiner's leaf key is all it must hold. |
| `KeyOwnership.ExternalJoinerExact` | src/create-commit.ts:839-842 | An external joiner's keys are exact for the tree it makes. |
| `UnmergedLeaves.ValidateUnmergedLeaves` | src/client-state.ts:439-465 | The early-exit loops accept a sound tree exactly when the rule holds of every parent and listed leaf. |
| `UnmergedLeaves.AddKeepsTree` | src/ratchet-tree.ts:177-206 | Adding a leaf keeps the unmerged-leaves rule, members on both sides of every parent, and unmerged lists in increasing order. |
| `UnmergedLeaves.UpdateKeepsTree` | src/ratchet-tree.ts:208-224 | So does an Update. |
| `UnmergedLeaves.RemoveKeepsTree` | src/ratchet-tree.ts:226-264 | So does a Remove. |
| `KeyOwnership.PathKeepsTree` | src/update-path.ts:301-344 | So does writing an update path. |
| `LeafValidation.SummarizeLeaves` | src/client-state.ts:576-614 | One pass counts, for every key, exactly the leaves that carry it, and finds the credential types every leaf lists. |
| `LeafValidation.CountOthersIff` | src/client-state.ts:616-624 | The subtracting count is positive exactly when a leaf other than the replaced one carries the key. |
| `LeafValidation.ValidateLeafNodeCommon` | src/client-state.ts:717-804 | The verdict from the summary equals the scan over all other leaves and parents, for every tree, candidate and replaced index. |
| `LeafValidation.HasDuplicate` | src/client-state.ts:542-556 | True exactly when two positions carry one key. |
| `LeafValidation.CheckedLeafKeeps` | src/client-state.ts:758-804 | A leaf that passed, put in its place, keeps keys distinct, signature keys distinct and credential types mutually listed. |
| `Membership.MutationsKeepRules` | src/client-state.ts:1688-1767 | Tree shape, key rules and parent-hash links survive every step of the Update, Remove and Add folds. |
| `Membership.MutationsEffect` | src/client-state.ts:1688-1767 | An accepted list changes exactly what it names: updated leaves hold their Update, unnamed ones are unchanged, added ones distinct and in order. |
| `AppliedLists.MutationsIff` | src/client-state.ts:1688-1767 | The tree becomes another exactly when every Update, then every Remove, then every Add can be taken on the tree the steps before it left; each step is said leaf by leaf. |
| `AppliedLists.TakesIff` | src/client-state.ts:1027-1232 | Exactly which lists are applied: a newcomer's with its one external init, one reinit alone, or a valid member's list all of whose steps can be taken and whose pre-shared keys are known. |
| `Membership.MembersConserved` | src/client-state.ts:1688-1767 | Members after equal members before, less the removed, plus the added. |
| `Membership.PostMutationCapabilities` | src/client-state.ts:370-381 | The shortcut that mutates nothing lists, in order, the capabilities of the leaves Updates and Removes leave. |
| `ProposalRules.ListValidIff` | src/client-state.ts:218-344 | validateProposals accepts exactly the lists in which no two proposals go against each other, each is one this committer may commit, a client added again is removed, and members and newcomers have what the extensions ask: said of the list itself. |
| `ProposalRules.BecomeIs` | src/client-state.ts:181-204 | The extensions a list leaves are those of its one change of extensions, or the old ones. |
| `Membership.RemovedFlagIff` | src/client-state.ts:1132-1132 | The flag is read after the Adds: it says a removed leaf is gone exactly when the Adds are no more than the leaves before it that are blank or removed. |
| `Membership.RefilledIff` | src/ratchet-tree.ts:154-206 | Which leaf an Add takes: a leaf blank or removed is filled exactly when fewer such leaves come before it than there are Adds. |
| `Membership.ReplaceMember` | src/client-state.ts:1730-1767 | In every group of two, removing the second member and adding one puts the newcomer in the removed leaf. |
| `Membership.SurvivorNotFlagged` | src/client-state.ts:1132-1132 | A member no Remove names is never flagged. |
| `Membership.RemovedIsBlankAbove` | src/client-state.ts:1730-1767 | Everything above a removed leaf is blank after the proposals, refilled or not. |
| `FilterPending.RunFilter` | src/create-commit.ts:386-452 | The loop over the pending proposals computes the fold, with its early exceptions; what that fold chooses is `FilterChoices.ChosenIs`. |
| `FilterPending.FilterKeeps` | src/create-commit.ts:386-452 | What is kept is coherent: none twice, no Update by the committer or by a leaf a kept Remove names, and the commit's own fold of the kept Removes succeeds and removes those members and no others. |
| `FilterChoices.ReceivableIff` | src/client-state.ts:1778-1854 | The receipt check accepts exactly these: a Remove of a member; a sound key package that can stand beside the members it does not match; a sound replacement leaf with a new key; a pre-shared key with a fitting nonce and usage; no external init. |
| `FilterChoices.ChosenIs` | src/create-commit.ts:386-462 | The filter in full, both ways: each Remove of a member once, then, in order, each first proposal of its content that is not outdated, is accepted against the tree those Removes leave and, for an Add or Update, meets what the extensions this commit sets require. |
| `FilterPending.ChosenRemovesApply` | src/create-commit.ts:386-452 | The filter's working tree is the one the commit's fold of the chosen Removes makes. |
| `FilterPending.FilterThrowsIff` | src/create-commit.ts:386-452 | It throws exactly when the pending Removes name every member, or a pending Add matches every member they do not name. |
| `ClientRuns.OwnRemovalBlocks` | src/create-commit.ts:386-452 | A run that gets there: alone in a group, a member that proposes its own removal can make no commit; discarding the proposal lets it again. |
| `FilterPending.RemoveFailsIff` | src/ratchet-tree.ts:226-264 | Removing a leaf throws exactly when it is the last. |
| `ParentHashCheck.VerifyParentHashes` | src/parent-hash.ts:93-111 | The check with its tallies equals the count over single climbs. |
| `ParentHashCheck.ClimbFrom` | src/parent-hash.ts:113-188 | One climb, memoized and updating the coverage in place, ends since levels rise, never raises the missing-parent error, and adds one to exactly the nodes its leaf covers. |
| `ParentHashCheck.StepIsLink` | src/parent-hash.ts:64-91 | Testing only the nearest non-blank ancestor finds every link, as the code tests links, that there is. |
| `ParentHashCheck.VerifiedIff` | src/parent-hash.ts:93-188 | Accepted exactly when each non-blank parent is covered by one and only one leaf-rooted chain of links as the code tests them. |
| `StandardLinks.LinkIsStandard` | src/parent-hash.ts:49-91 | In a tree that passes the unmerged-leaves rule every link the code accepts is a link of section 7.9.2 of RFC 9420, repeats or not. |
| `StandardLinks.OneChain` | src/parent-hash.ts:84-111 | At most one chain of the standard leads to a parent: each side's hash covers the other side, and one side's lists fix the node. |
| `StandardLinks.StandardVerifiedIff` | src/parent-hash.ts:93-188 | In such a tree the check accepts exactly what section 7.9.2 accepts and whose links compare lists of equal length, which they do if no list repeats a leaf. |
| `StandardLinks.RepeatRefused` | src/parent-hash.ts:49-62 | With a repeat the check can be stricter: a tree of two members passes section 7.9.2 and the unmerged-leaves rule, and the check refuses it. |
| `StandardLinks.HashCheckAlone` | src/parent-hash.ts:49-62 | Without the unmerged-leaves rule it can be laxer: such a tree passes the check, breaks section 7.9.2, and is refused by the unmerged-leaves rule. |
| `StandardLinks.HashCheckAloneIff` | src/parent-hash.ts:49-188 | On a tree the check accepts, it accepted by the standard, with lists of equal length, exactly when every list it compared names the nodes of the other side and no more. |
| `StandardLinks.LinkedVerified` | src/parent-hash.ts:93-188 | A tree that passes the unmerged-leaves rule and has a link to every parent passes the check. |
| `ParentHashKept.UpdateKeepsHashes` | src/ratchet-tree.ts:208-224 | An Update keeps every remaining parent linked. |
| `ParentHashKept.RemoveKeepsHashes` | src/ratchet-tree.ts:226-264 | So does a Remove. |
| `ParentHashKept.AddKeepsHashes` | src/ratchet-tree.ts:177-206 | So does an Add, since links are judged without the unmerged leaves. |
| `ParentHashKept.NewTreeKeepsHashes` | src/update-path.ts:98-222 | So does a commit's update path. |
| `ParentHashKept.AcceptedPath` | src/update-path.ts:346-429 | Any path applyUpdatePath accepts leaves every parent it wrote linked and listing nobody, and changes nothing else but the leaf. |
| `PathRules.PathKeepsRules` | src/update-path.ts:98-222 | After any hashed path of new keys by a leaf that fits, the tree keeps its shape, key rules and links. |
| `PathRules.AcceptedKeepsRules` | src/update-path.ts:346-429 | The key checks of applyUpdatePath are what that takes: any path it accepts from a leaf that passed keeps them. |
| `Joins.ValidateRatchetTree` | src/client-state.ts:467-540 | A joiner's check, run through its one-pass parts, accepts exactly the trees that meet every rule. |
| `Joins.AcceptedByStandard` | src/client-state.ts:467-540 | A joiner accepts no tree that breaks a rule, the parent-hash rule of section 7.9.2 included, and refuses one that keeps them all only when a link's lists differ in length, which takes a repeated leaf. |
| `Acceptance.LeavesStandIff` | src/client-state.ts:467-540 | The leaf checks of a joiner, leaf by leaf: keys usable, signed for no place or for its own, credential good, required and listed extensions, beside all others. |
| `Joiners.AcceptedGoodIff` | src/client-state.ts:467-540 | A tree a joiner accepts keeps every rule of an honest one exactly when each parent has members on both sides and lists its leaves in order. |
| `Agreement.AppliedAgrees` | src/client-state.ts:1027-1232 | A receiver that has the committer's pending proposals applies a commit to the same result, up to its own removed flag; what that result is, `EpochContents.AppliedYields` and `AppliedLists.TakesIff` say. |
| `EpochContents.AppliedYields` | src/client-state.ts:1027-1232 | What applying a list gives: its kind, the extensions its change sets, its pre-shared keys joined in order, and a path due exactly when it is empty or has anything but Adds, pre-shared keys and a reinit. |
| `EpochContents.PskSecretIff` | src/psk-index.ts:15-35 | The pre-shared keys are joined one after another, each with its own place and the count, or, if one is unknown or has a wrong nonce, not at all. |
| `EpochContents.SameTagSamePsks` | src/psk-index.ts:15-35 | Clients whose commits led them to one confirmation tag used the same pre-shared keys in the same order, and one commit secret. |
| `Agreement.OwnUpdateKey` | src/pending-update-keys.ts:40-58 | The key a member looks up for a commit is the private half of the leaf its own Update puts in the tree, and there is one exactly when there is such an Update. |
| `Convergence.CommitterStays` | src/create-commit.ts:136-185 | Nothing a commit carries touches the committer's leaf, keys or signature key. |
| `Convergence.CommitterTreeGood` | src/create-commit.ts:136-220 | The tree a commit makes keeps every rule. |
| `Convergence.CommitterKeysExact` | src/create-commit.ts:293-310 | The committer's next keys are exact and it signs for its new leaf. |
| `Convergence.CommitterKeeps` | src/create-commit.ts:136-360 | After its own commit a member is in good order and not removed. |
| `EpochContents.CommitterNext` | src/create-commit.ts:136-360 | The committer's next epoch, message and state, from its proposals: extensions, transcript chained on the last hash and tag, tree hash, schedule from the old init secret, the path's last secret and the pre-shared keys, the epoch left retained as it was, suspended exactly by a reinit; a path exactly when due or patched. |
| `EpochContents.CommitterPathIs` | src/create-commit.ts:197-310 | Its path: each ciphertext is sealed in the context of the next epoch but for the transcript, and the leaf is the patch over the old leaf, with a fresh key and its own signature for its place. |
| `CommitMade.CommitMadeIff` | src/create-commit.ts:136-360 | A member in good order can make a commit exactly when it is active, the filter does not throw, the proposals can be applied and a patch makes a leaf that fits; no path and no Welcome fails for any other reason. |
| `Receivers.TreeUpdateAgrees` | src/process-messages.ts:580-635 | A receiver's tree, commit secret and keys are the committer's, its own and exact. |
| `Receivers.ReceiverConverges` | src/process-messages.ts:400-578 | A receiver no Remove names fails an honest commit, of any kind a member makes, exactly when the path's leaf is refused, with that error; otherwise it reaches the committer's context, schedule, tree and tag with exact keys. |
| `Receivers.RemovedReceiver` | src/process-messages.ts:400-578 | A removed receiver learns it was removed when the commit's Adds are no more than the vacancies before its leaf. |
| `Receivers.RefilledReceiver` | src/process-messages.ts:400-578 | When they are more, an Add takes its leaf and it is not told: processing throws. |
| `Receivers.RemovedToldIff` | src/process-messages.ts:400-578 | So it is told exactly when the path's leaf stands and no Add is left over for its leaf. |
| `Receivers.FollowsIff` | src/process-messages.ts:400-578 | A member moves to the committer's epoch exactly when it has every proposal the commit references, no Remove names it and the path's leaf stands; then it converges. |
| `AcceptedCommits.AcceptedKeepsMember` | src/process-messages.ts:400-578 | A member that accepts any commit by another, honest or not, keeps its leaf, holds exactly the keys the new tree says it must, and can sign for its leaf; one that is removed keeps what it had. |
| `AcceptedCommits.AcceptedKeepsTree` | src/process-messages.ts:400-578 | And its tree keeps its shape, key and credential rules and parent hashes. |
| `EpochContents.ReceiverNext` | src/process-messages.ts:400-578 | The same of whoever accepts a commit, whoever made it. |
| `EpochContents.PathRequiredIff` | src/process-messages.ts:400-578 | A commit that brings no path is refused for that exactly when its proposals call for one. |
| `GroupExtensions.CommitterFits` | src/client-state.ts:299-344 | A member's own commit keeps what the group's extensions require of every leaf, and keeps their support exactly as below. |
| `GroupExtensions.AcceptedFits` | src/client-state.ts:299-344 | After any accepted commit every leaf meets what the extensions it leaves require. Every leaf goes on listing the extensions exactly when the path's leaf does and, where the commit changes no extensions, its Updates' leaves do. |
| `Counterexamples.SupportDropped` | src/client-state.ts:717-804 | For they are not checked: a member of a group with an extension commits a leaf that does not list it, and is not stopped. |
| `AcceptedCommits.RemovedCannotAdvance` | src/process-messages.ts:400-578 | A member that any commit removes and refills gets an exception: it can open nothing in the path, whatever was sealed. |
| `EpochTags.SameTagSameEpoch` | src/process-messages.ts:400-578 | Two clients whose states carry one confirmation tag share context, key schedule and tree. |
| `EpochTags.AcceptorsAgree` | src/process-messages.ts:400-578 | Two clients that one commit takes into a new epoch share it, whoever made the commit and even if they did not agree before. |
| `EpochTags.MakerAgrees` | src/create-commit.ts:136-360 | And with the commit's maker. |
| `EpochContents.OneTranscript` | src/client-state.ts:1255-1275 | Clients with one confirmation tag have come by the same commits, contents, signatures and tags, as far back as both have been in the group. |
| `Secrecy.SeedKept` | src/crypto/hpke.ts:66-95 | Whoever holds nothing that comes of a fresh secret learns nothing that does, but by opening something sealed to a key it can have anyway. |
| `Secrecy.EpochSecretIff` | src/create-commit.ts:136-360 | Who knew everything of the old epoch learns the new one's secret from a commit and its Welcome exactly when the commit had no path, or when it has, without them, a private key they were sealed to. |
| `KeySeparation.ScheduleTable` | src/key-schedule.ts:79-113 | Each of the ten outputs of an epoch is derived from the epoch secret under the label RFC 9420 gives it. |
| `KeySeparation.ScheduleApart` | src/key-schedule.ts:79-113 | The ten outputs are pairwise different, and all of them but one, together, tell neither that one nor the epoch secret, unless anybody can compute it. |
| `KeySeparation.RestDoesNotCarryOver` | src/key-schedule.ts:79-140 | All of an epoch but its init secret, exporter, authenticator and resumption secret included, does not lead to the root of the next epoch, nor to any output of it, after a commit without a path. |
| `KeySeparation.PathSecretsGive` | src/path-secrets.ts:49-100 | A secret on an update path gives the path secrets from its own on, and none before it. |
| `KeySeparation.NodeKeysGiveNone` | src/path-secrets.ts:49-100 | The private keys of a path, all together, tell none of its path secrets. |
| `KeySeparation.NodeKeysFrom` | src/path-secrets.ts:49-100 | A path secret gives the private keys of the nodes from its own up, and of none below. |
| `Joiners.FindsOwn` | src/create-commit.ts:510-534 | Each newcomer finds the secrets sealed for it and no other's. |
| `Acceptance.JoinGroupIff` | src/client-state.ts:1379-1610 | A Welcome admits a newcomer, into a stated state, exactly when it has secrets sealed to it that open it, a tree a joiner accepts with its leaf in it, a member's signature, a matching suite and version, extensions it lists and a right tag. |
| `Joiners.JoinKeysExact` | src/client-state.ts:1561-1581 | What the Welcome carries completes the newcomer's keys, with or without a path. |
| `Joiners.JoinExactIff` | src/client-state.ts:1545-1581 | From any Welcome, the keys a newcomer derives are exact exactly when the ancestors that do not list its leaf are those on the signer's path if a path secret came, and none if none did. |
| `Joiners.JoinerConverges` | src/client-state.ts:1379-1609 | Whoever a commit adds joins exactly when its own policies allow, never trips the missing path secret check, and shares the committer's epoch at the leaf the commit gave it. |
| `Counterexamples.ShortWelcomeAccepted` | src/client-state.ts:1545-1581 | The check for a missing path secret looks at one ancestor: a Welcome without one is accepted and leaves the newcomer short of the root's key. |
| `ExternalJoins.SameLeafIndex` | src/ratchet-tree.ts:154-206 | The joiner, and a member adding its leaf, arrive at one leaf index. |
| `Acceptance.JoinExternalIff` | src/create-commit.ts:740-905 | An external join is made exactly when the group may be joined and, for a resync, a former leaf is found that is not the only one. |
| `Acceptance.ExternalJoinerIs` | src/create-commit.ts:740-905 | What it sends and the state it goes on in: the next epoch over the GroupInfo's transcript and tag, keyed by the encapsulated init secret and its own path. |
| `ExternalJoins.ExternalTreeGood` | src/create-commit.ts:821-837 | An external join's tree keeps every rule if the members accept the leaf. |
| `ExternalJoins.ExternalJoinerKeeps` | src/create-commit.ts:740-924 | The joiner's new state is a member in good order, one epoch on. |
| `ExternalJoins.ExternalConverges` | src/process-messages.ts:400-578 | Each member the join does not replace refuses it exactly when a resync names another signature key's leaf, or the leaf breaks the rules, with the matching error; otherwise it reaches the joiner's epoch. |
| `Counterexamples.ResyncRefused` | src/create-commit.ts:740-924 | A resync that names a leaf with another signature key is drafted and joined by its maker, and the member it leaves in place refuses it. |
| `ExternalJoins.ReplacedThrows` | src/process-messages.ts:400-578 | The former member a resync replaces gets an exception, wherever the joiner's new leaf is. |
| `Lifecycle.NextStep` | src/process-messages.ts:126-398 | One call: rules kept, one epoch forward exactly when a commit is accepted, nothing at all once removed, history only once suspended. |
| `Lifecycle.RunKeeps` | src/process-messages.ts:163-578 | Over every run from a state in order, pending proposals and Update keys are of the current epoch, pending within bounds, and the epoch counts the accepted commits. |
| `MemberRuns.RunKeepsMember` | src/process-messages.ts:126-398 | Over every run, whatever commits it is sent, a member keeps its leaf, exactly the keys its tree says it must hold, and the key to sign for its leaf. |
| `MemberRuns.RunKeepsTree` | src/process-messages.ts:126-398 | And a tree that keeps every rule keeps them, its own commits being from fresh secrets. |
| `MemberRuns.HandmadeUpdateIff` | src/create-message.ts:27-64 | createProposal leaves a member in order exactly when what it sends is not an Update made by hand, whose key it does not keep. |
| `UpdateKeys.KeysListedIff` | src/create-message.ts:66-135 | Each pending Update key keeps its pending proposal through every step but one: discarding that proposal. |
| `UpdateKeys.OrphansStep` | src/unapplied-proposals.ts:62-74 | One call leaves no Update key without its pending proposal, except that discarding that proposal does; a new epoch starts with none. |
| `UpdateKeys.RunKeepsKeysWithin` | src/pending-update-keys.ts:27-65 | Over a run without such a discard there are no more keys than pending proposals, hence no more than the limit. |
| `UpdateKeys.RunKeysBound` | src/pending-update-keys.ts:27-65 | Over every run there are no more keys than pending proposals and own Updates discarded in the current epoch. |
| `UpdateKeys.KeysUnbounded` | src/unapplied-proposals.ts:62-74 | That is reached: any client that can propose one Update has, for every k, a run to k keys with nothing pending. |
| `ClientRuns.AnyNumberOfKeys` | src/unapplied-proposals.ts:62-74 | A created group with room for one pending proposal is such a client. |
| `ClientRuns.KeysWithinLimit` | src/pending-update-keys.ts:27-65 | From its first state on, a client that discards none of its own Updates never has more keys than its limit on pending proposals. |
| `Lifecycle.RemovedForever` | src/process-messages.ts:126-142 | A removed client never changes again. |
| `Lifecycle.SuspendedFrozen` | src/process-messages.ts:144-158 | A client suspended for a ReInit changes only inside its retained epochs. |
| `Lifecycle.WindowSlides` | src/client-state.ts:1909-1948 | Leaving an epoch slides the retained window by one. |
| `Lifecycle.WindowSize` | src/client-state.ts:1939-1948 | The window holds the smaller of the setting and the epochs since the join. |
| `Lifecycle.RunWindow` | src/client-state.ts:1909-1948 | Over every run the retained epochs stay the newest before the current one, unbroken. |
| `ClientRuns.EntryOk` | src/client-state.ts:1379-1664 | A client that creates a group, joins by a Welcome or joins externally starts in order, with nothing pending and nothing retained. |
| `Acceptance.CreatedAs` | src/client-state.ts:1612-1664 | A group begins with its creator at leaf 0 and epoch 0, the context as asked, keyed by its epoch secret, nothing pending or retained. |
| `ClientRuns.EntryExactIff` | src/client-state.ts:1379-1664 | With the keys of its key package a client starts with exact keys when it creates a group or joins externally, and from a Welcome exactly when the path secret in it covers its ancestors. |
| `RequirementRuns.EntryRequiredIff` | src/client-state.ts:1379-1664 | A Welcome lets a client only into a group that keeps its requirement; one that creates it or joins by its own commit starts so exactly when its own leaf meets it. |
| `ClientRuns.EveryReachableState` | src/process-messages.ts:163-578 | In every state a client can reach, all of this holds, and it retains as many epochs as it is set to or has left since it entered; entered with exact keys it still holds exactly those its tree says it must and can sign, however dishonest the commits it was sent, and a tree that kept every rule keeps them. |
| `RequirementRuns.AlwaysRequired` | src/process-messages.ts:163-578 | From such a start, in every state a client reaches every member has what the group's extensions require. |
| `ClientRuns.OneTagOneEpoch` | src/process-messages.ts:400-578 | In any two runs of any two clients, past the epoch a group is created in, one confirmation tag means one context, tree and key schedule. |
| `Lifecycle.OldMessageGate` | src/process-messages.ts:199-244 | An application message of an earlier epoch passes exactly when that epoch is in the window. |
| `Acceptance.ReceiveIff` | src/process-messages.ts:126-400 | Exactly which messages are taken in: by group, epoch, wire format, kind, suspension, room and the receipt check. |
| `Acceptance.ReceivedIs` | src/process-messages.ts:163-400 | What one changes: a proposal is pending under its reference and under no other is anything else, an old message steps only the ratchet of its epoch. |
| `Acceptance.AddedAtPlace` | src/unapplied-proposals.ts:32-51 | A proposal stored again keeps the place of the first one under its reference. |
| `Acceptance.AddedLast` | src/unapplied-proposals.ts:32-51 | One under a new reference goes to the end. |
| `Acceptance.DiscardedOne` | src/unapplied-proposals.ts:66-78 | Of one proposal discarding leaves nothing if it is under the reference, and it otherwise. |
| `Acceptance.DiscardedFrom` | src/unapplied-proposals.ts:66-78 | Of a longer list it leaves what it leaves of its parts, in order. |
| `Acceptance.SendIff` | src/create-message.ts:137-260 | A proposal is sent exactly when the client is active, has room, and would receive it from itself; application data when it is active and nothing is pending. |
| `Acceptance.UpdateIff` | src/create-message.ts:66-135 | An Update of its own exactly when besides it has a leaf and the patched leaf would be received. |
| `Acceptance.UpdateSent` | src/create-message.ts:66-135 | An Update sent is the patch over the member's leaf with the new key, signed for its place, and its private key is stored under its reference; no other proposal changes. |
| `Groups.ReceiptAgrees` | src/client-state.ts:1778-1854 | A proposal that passes the check of its sender passes every receiver's. |
| `Groups.CommitTakesIff` | src/process-messages.ts:163-578 | Of the old group the commit takes into the new epoch its maker and exactly those that accept it, have what it references and are not removed. |
| `Groups.RunKeepsGroup` | src/process-messages.ts:163-578 | Proposals, Updates, discards, commits and joins, each refused by whom it may be, keep the members in step in good order. |
| `Groups.AllAgreeAlways` | src/client-state.ts:1612-1664 | From createGroup on, after any run, all members in step share context, schedule, tree and tag and never mean two proposals by one reference, sit at different leaves, hold exactly their keys, and the tree keeps every rule, that of section 7.9.2 included; if nobody refuses or discards they share the pending proposals. |
| `RoomLogic.ReplayInOrder` | example-realistic-demo/room-logic.ts:29-34 | Whatever order storage gave, a replay is what the cursor has not seen, sorted. |
| `RoomLogic.DenseAfter` | example-realistic-demo/room-logic.ts:29-34 | Over a log numbered 1 to n that is the log from the cursor's index on. |
| `RoomLogic.Page` | example-realistic-demo/room-logic.ts:59-79 | A page is the longest prefix that fits the budget, or a single entry that does not. |
| `RoomLogic.PageUnique` | example-realistic-demo/room-logic.ts:59-79 | There is one such page. |
| `RoomLogic.ReplayComplete` | example-realistic-demo/index.ts:830-858 | Pages asked for from the last entry received join to exactly what the cursor had not seen, even as the log grows. |
| `RoomLogic.ReplayAll` | example-realistic-demo/index.ts:830-858 | Asking a log that does not change ends with the whole of it. |
| `RoomLogic.CountStable` | example-realistic-demo/room-logic.ts:229-236 | Entries past a cursor leave its count as it was. |
| `Rooms.Room.OnMls` | example-realistic-demo/index.ts:570-624 | Taken exactly when there is a room, the socket is a member's, a commit the creator's, and the limits allow; then the log has one entry more, by the writer, numbered one past its length, within both caps, and only the throttle changed besides. |
| `Rooms.Room.OnWelcome` | example-realistic-demo/index.ts:791-822 | Only the creator leaves a Welcome; it is stamped with the length of the log and its number of application entries, and waits exactly when no open socket has the recipient's identity. |
| `Rooms.Room.DeliverMailbox` | example-realistic-demo/index.ts:928-972 | A stored Welcome is gone exactly when some open socket had the identity. |
| `Rooms.Room.ReplaceExistingSocket` | example-realistic-demo/index.ts:1233-1258 | The loop over the sockets leaves no other socket open under the identity. |
| `Rooms.Room.FinishCreate` | example-realistic-demo/index.ts:443-511 | The room is made exactly when its id was never used, with empty tables and at most one creator socket; else nothing changes. |
| `Rooms.Room.FinishHello` | example-realistic-demo/index.ts:513-568 | In a room the socket takes over the identity, is the creator's exactly with the creator's identity and token, and gets the mail if open. |
| `Rooms.Room.OnJoinRequest` | example-realistic-demo/index.ts:639-672 | A request is taken exactly from a socket with the proved identity, within the size and the throttle, with room or in place of an earlier one; then it is queued and only the throttle changed besides. |
| `Rooms.Room.OnApprove` | example-realistic-demo/index.ts:722-748 | Only the creator admits; the admitted may write, even after an expulsion, no longer waits, and nobody else's standing changes. |
| `Rooms.Room.OnDeny` | example-realistic-demo/index.ts:750-764 | Only the creator denies; request and mail are forgotten, the standing stays. |
| `Rooms.Room.OnRemoved` | example-realistic-demo/index.ts:766-789 | Only the creator expels; the expelled may not write unless as creator, has no mail, and nobody else's standing changes. |
| `Rooms.Room.Alarm` | example-realistic-demo/index.ts:359-400 | Every table is emptied, every socket closed, the id spent; the registry is to be called exactly when this run found the room live. |
| `Rooms.RoomRegistry.MarkExpired` | example-realistic-demo/index.ts:1347-1374 | One id's row is replaced, no other changes. |
| `RoomRuns.RoomLife` | example-realistic-demo/index.ts:359-511 | In every interleaving a meta row is put in at most once ever, a live room is listed live, and outside its life the room holds no group data. |
| `RoomRuns.DeadForever` | example-realistic-demo/room-logic.ts:180-182 | A tombstoned id never becomes live. |
| `RoomRuns.RoomData` | example-realistic-demo/index.ts:570-858 | Over every run the log stays numbered 1 to n, stored Welcomes have the right cursor and count, caps hold, only the creator's commits are in the log, and a live room's log only grows. |
| `RoomRuns.EveryReachableRoom` | example-realistic-demo/index.ts:359-858 | From an unused room id, after any interleaving: at most one meta row ever, the tables in order, a live room listed live, and the listing what the last registry call to land wrote. |
| `RoomRuns.AlarmMarksIff` | example-realistic-demo/index.ts:381-400 | An alarm asks for the registry to be marked exactly when it finds the room live, so a retry does not. |
| `RoomRuns.ListingIsLastLanded` | example-realistic-demo/index.ts:1347-1374 | Nothing orders the registry calls: in every run the row is what the last one to land wrote. |
| `RoomRuns.ListingFrozen` | example-realistic-demo/index.ts:381-400 | Once a room has expired and no call is on its way, no run changes its listing. |
| `RoomRuns.FailedMarkStaysLive` | example-realistic-demo/index.ts:381-400 | One failed call, whose retry makes none, leaves an expired room listed live after any further run. |
| `RoomRuns.LateListing` | example-realistic-demo/index.ts:462-472 | So does a second create's call that lands after the alarm's. |
| `RoomRuns.TwoCreatesReachIt` | example-realistic-demo/index.ts:443-511 | Two sockets that ask to create one room at once reach that state. |
| `PathBuffers.PathSecretsAlongFilteredPath` | src/path-secrets.ts:81-100 | The loop over buffers holds the values of the walk; its buffers are the caller's first one and new ones. |
| `PathBuffers.ZeroPathSecrets` | src/path-secrets.ts:22-24 | Every buffer of the record is zero afterwards. |
| `PathBuffers.FindPathSecret` | src/create-commit.ts:692-738 | The search loop finds what its specification finds. |
| `PathBuffers.UpdatePrivateKeyPath` | src/process-messages.ts:637-681 | Keys and commit secret are those computed on values although every path secret is wiped before the return. |
| `PathBuffers.DeriveWelcomePrivateKeyPath` | src/private-key-path.ts:48-70 | The same for a joiner, whose own secret is wiped too. |
| `PathBuffers.MergePrivateKeyPaths` | src/private-key-path.ts:24-46 | The loop that fills a record computes the merge. |
| `PathBuffers.PruneBlankedNodes` | src/private-key-path.ts:82-104 | The loop keeps exactly the keys of non-blank nodes. |
| `Ratchets.TakeGives` | src/secret-tree.ts:289-354 | Whatever came before, in whatever order, the keys taken for a generation are its sender's, derived from that generation's chain secret under key and nonce. |
| `Ratchets.TakeIff` | src/secret-tree.ts:289-354 | They can be had exactly when the generation is still open and at most the forward limit ahead. |
| `Ratchets.TakeCloses` | src/secret-tree.ts:172-263 | Taking a generation closes it, opens none, and loses no other while there is room for the skipped. |
| `Ratchets.NeverAgain` | src/secret-tree.ts:289-354 | No generation's keys are handed out twice, whatever is asked for in between. |
| `Ratchets.AnyOrder` | src/secret-tree.ts:289-354 | Messages within the window, late and in any order, all get their keys. |
| `RatchetSecrecy.KeysApart` | src/secret-tree.ts:155-208 | No key is a nonce or a chain secret, and no two generations share one. |
| `RatchetSecrecy.KeysTellNothing` | src/secret-tree.ts:155-208 | One generation's key and nonce tell no chain secret and no other generation's key or nonce. |
| `RatchetSecrecy.ChainGives` | src/secret-tree.ts:172-263 | A chain gives away exactly the keys of the generations it can still open and the chain secrets from its own on. |
| `RatchetSecrecy.TakenStaysSecret` | src/secret-tree.ts:289-354 | Once taken, a generation's key and nonce cannot be derived from the chain again, after any further requests. |
| `Ratchets.RatchetUntil` | src/secret-tree.ts:172-208 | The loop that wipes the chain secrets it derives computes the values; what it returns is of the caller's buffers or new ones, none of them wiped. |
| `Ratchets.RatchetToGeneration` | src/secret-tree.ts:289-354 | The same for the whole operation; the keys handed out are in new buffers no ratchet holds. |
| `Ratchets.Decipher` | src/message-protection.ts:232-262 | A message deciphered extends a run of states as the rule on dropped buffers asks: the new state holds an old buffer only if the last one did. |
| `Consumed.StateSecrets` | src/consumed.ts:29-74 | The set built through loops holds every secret buffer a state reaches. |
| `Consumed.ConsumedSecrets` | src/consumed.ts:16-27 | Each buffer the old state holds and the new one does not, once, and no other. |
| `Consumed.Retire` | src/process-messages.ts:105-110 | Wiping what was dropped changes no byte the kept state holds. |
| `Consumed.StaysDropped` | src/consumed.ts:16-74 | If operations hold only old or new buffers, a dropped buffer never comes back. |
| `Consumed.DroppedOnce` | src/consumed.ts:16-74 | Every buffer a run held and no longer holds was handed back exactly once. |
| `Consumed.WipeAlong` | src/consumed.ts:16-74 | Wiping every list of a run leaves the last state's bytes and wipes all else it held. |
| `Codecs.UintExact` | src/codec/number.ts:15-60 | Fixed-width integers: the decoder is the exact inverse of the encoder, whose octets `WireLayout.UintOctets` gives. |
| `Codecs.Uint64Exact` | src/codec/number.ts:62-76 | 64-bit integers are read back exactly when in range; the encoder wraps the rest, to the octets of `WireLayout.Uint64Octets`. |
| `WireLayout.UintOctets` | src/codec/number.ts:15-60 | Octet i of a k-octet integer is its digit of weight k - 1 - i to base 256, the most significant first; out of range nothing is written. |
| `WireLayout.Uint64Octets` | src/codec/number.ts:62-67 | The same for 64 bits, of any integer: its low eight octets. |
| `Codecs.LengthRead` | src/codec/variable-length.ts:14-60 | Each length field is read back with its size. |
| `Codecs.LengthWritten` | src/codec/variable-length.ts:29-60 | Whatever length field is read is the shortest one, the encoder's own. |
| `WireLayout.HeaderIs` | src/codec/variable-length.ts:14-27 | The length field's shifts and masks write the field of section 16 of RFC 9000 in the fewest octets, as one big-endian number. |
| `Codecs.VarDataExact` | src/codec/variable-length.ts:5-76 | Variable-length data: exact inverse. |
| `Codecs.VectorExact` | src/codec/variable-length.ts:78-125 | Vectors of items that take at least a byte: exact inverse. |
| `Codecs.OptionalExact` | src/codec/optional.ts:6-28 | Optional values: exact inverse, a presence octet past 1 refused. |
| `Codecs.PairExact` | src/codec/tls-decoder.ts:27-59 | Decoding in sequence is exact when the parts are. |
| `Codecs.MappedExact` | src/codec/tls-decoder.ts:3-11 | Mapping is exact when it loses nothing; values that do not map back are not read. |
| `Codecs.FlatMapExact` | src/codec/tls-decoder.ts:72-100 | A tag that chooses the decoder is exact when each arm reads only its own values. |
| `Codecs.RoundTrip` | src/codec/tls-decoder.ts:1-106 | With an exact codec a value comes back, between any bytes, exactly when it is readable. |
| `Codecs.PrefixFree` | src/codec/tls-encoder.ts:1-36 | No readable value's encoding is a prefix of another's. |
| `Wire.CredentialCodec` | src/credential.ts:25-75 | Read back: basic and X.509 credentials, and no custom one. |
| `Wire.LeafCodec` | src/leaf-node.ts:55-181 | Read back: the leaves whose credential, codes, lifetime and extensions are well formed, whatever their source. |
| `Wire.LeafFrom` | src/leaf-node.ts:183-197 | A decoder for one source reads exactly the leaves of that source. |
| `Wire.KeyPackageCodec` | src/key-package.ts:38-85 | Exact inverse on well-formed key packages. |
| `WireLayout.KeyPackageIs` | src/key-package.ts:38-85 | The octets of a key package, its leaf, capabilities, credential and extensions within, field by field in the order of RFC 9420. |
| `Wire.PskCodec` | src/presharedkey.ts:57-110 | Exact inverse on external and resumption identifiers. |
| `Wire.ProposalCodec` | src/proposal.ts:178-257 | Exact inverse on well-formed proposals; a custom one must have a type outside 1 to 7. |
| `Wire.CustomRoundTrip` | src/proposal.ts:173-176 | A custom proposal of any 16-bit type is encoded; it comes back exactly when the type is outside 1 to 7. |
| `WireLayout.ProposalIs` | src/proposal.ts:178-257 | The octets of every proposal the encoder writes: type, then fields. |
| `WireMessages.CommitCodec` | src/commit.ts:17-25 | Exact inverse on commits, path and all. |
| `WireLayout.CommitIs` | src/commit.ts:17-25 | The octets of a commit: proposals and references with their tags, and the path. |
| `WireMessages.FramedCodec` | src/framed-content.ts:63-163 | Exact inverse on framed content. |
| `WireLayout.FramedIs` | src/framed-content.ts:63-163 | The octets of framed content, sender and content types included. |
| `WireBodies.PublicCodec` | src/public-message.ts:46-85 | Read back exactly when the content type, the signature's part and the sender's part agree. |
| `WireBodies.PrivateCodec` | src/private-message.ts:61-77 | Exact inverse on private messages. |
| `WireBodies.WelcomeCodec` | src/welcome.ts:25-49 | Exact inverse on Welcomes. |
| `WireBodies.GroupInfoCodec` | src/group-info.ts:27-57 | Exact inverse on group infos. |
| `WireBodies.MessageRead` | src/message.ts:95-136 | A buffer is read as a message exactly when all of it from the offset on is that message's encoding, it is well formed and not too long. |
| `WireBodies.MessageRoundTrip` | src/message.ts:95-136 | An encoded message comes back exactly when it is well formed, within the limit, and nothing follows it. |
| `WireLayout.MessageIs` | src/message.ts:95-136 | The octets of a whole message of any of the five kinds; the encoder throws exactly where a field has none. |
| `WireLayout.LaidOutRead` | src/message.ts:95-136 | A buffer is read as a message exactly when its rest is that message laid out, well formed and not too long. |
| `PrivateContents.EncoderWithPadding` | src/private-message.ts:230-238 | The buffer written is the encoding and the padding, zeros. |
| `PrivateContents.DecoderWithPadding` | src/private-message.ts:240-260 | The accumulating scan refuses exactly when some byte after the content is not zero. |
| `PrivateContents.PaddedLength` | src/padding-config.ts:46-54 | The padded length is the larger of length and floor, or a constant more. |
| `PrivateContents.LengthHidden` | src/padding-config.ts:1-22 | Two contents pad to one length exactly when their lengths are equal or both within the floor. |
| `PrivateContents.PaddedRead` | src/private-message.ts:240-260 | A buffer is read exactly when it is an encoding followed by zeros. |
| `PrivateContents.PaddingTampered` | src/private-message.ts:240-260 | One byte of padding that is not zero and the whole is refused. |
| `PrivateContents.PrivateContentRoundTrip` | src/private-message.ts:101-161 | With every padding setting, content comes back and all bytes are used, exactly when it is well formed. |
| `PrivateContents.PrivateContentRead` | src/private-message.ts:101-161 | Whatever is decoded is padded content of the type asked for. |
| `WireLayout.PrivateContentIs` | src/private-message.ts:101-161 | The plaintext of a private message: bare content, signature and tag, then as many zeros as the padding asks for. |

## Left out

- Real cryptography and timing: every primitive is a free constructor, so distinct inputs never collide, and constant-time comparison is equality.
- Freshness: that a member's own path passes the key checks of others requires that its secret's keys are not in the tree already; the runs in `Groups` take only commits with such secrets. What any accepted commit keeps does not ask this of its maker.
- MemberRuns.RunKeepsMember: messages come from leaves of the tree or from outside and not from the member itself, a reference is not that of an own Update, and own Updates come from `createUpdateProposal`.
- Secrecy.EpochSecretIff: what one commit of a member gives away, its sender honest; that honest members' keys stay apart over a run is not modelled. What an epoch's outputs give away is `KeySeparation`; what the exporter derives further is not.
- RatchetSecrecy.KeysApart: the derivation is taken to be injective, and where the first chain secret is compared, that secret to come from outside the ratchet; its derivation from the secret tree is not modelled.
- ProposalRules.ListValidIff: the application's check of external senders is taken to pass an empty list, as the source's does.
- The encodings of the ratchet tree, of group secrets and of what is signed or hashed are not modelled.
- Groups.AllAgreeAlways: delivery is synchronous and in order, no two members commit at once, and every member has one `maxPendingProposals`. A member a commit does not take along leaves the group that is followed; it stays a client as `Lifecycle` has it. An external join that the members' checks refuse changes no member.
- Groups.RunKeepsGroup: Updates in a run come from `createUpdateProposal`; `createProposal` with an Update made by hand keeps no key for it, so its sender could not follow the commit that applies it.
- Message authenticity, wire encryption and signatures over framed content are one flag on an incoming message.
- The secret tree in a client's state is its width, its root secret and a step count. A leaf's ratchet is modelled by itself in `Ratchets`, its derivation any function; the reuse guard on the nonce is not.
- Historical receiver data keeps epochs and their secrets; which messages of an old epoch still open is modelled for a ratchet, not for a client.
- Consumed.WipeAlong: that operations hold only old or new buffers is proved of deciphering a message (`Ratchets.Decipher`); of the others it is taken.
- `deriveEpochKeys`, `initializeKeySchedule`, `createGroup` and `joinGroupWithGroupInfo` are modelled on values; that they wipe the epoch secret, the encryption secret and the init key in place is not.
- Tree-hash caching, concurrency limits on encryption and the in-place array of `createUpdatePath` are not modelled; its result is.
- Branch and resumption checks against a prior group, external senders' proposals and small-order key checks are parts of the environment or left out.
- An external commit made by `joinGroupExternal` has no pre-shared keys and no other proposals; receivers are modelled for the proposals it makes and refuse the rest as the code does.
- Trees are taken as full arrays of 2^(d+1) - 1 nodes; decoding a stripped tree is not modelled.
- Numbers and lengths are exact integers; the 2^53 limit of JavaScript numbers is not modelled.
- PrivateContents.EncoderWithPadding: padding settings are natural numbers; a negative or fractional setting is not modelled.
- WireBodies.MessageRead: offsets beyond the end of the buffer are not covered.
- RoomRuns.RoomLife: one room id and its registry row; handlers are atomic between awaits that are not storage, and storage operations are atomic.
- Rooms.Room.OnMls: text limits, rosters, broadcasting and replies to other sockets are not modelled.
- The Preact pages, IndexedDB, routing, rate limiting by address, security headers, SEAL attachments, benchmarks and build files.
