# CloseCommon, modelled and proved in Dafny

A *commons* is a shared folder whose parts are sealed under *closes*. Each close
has a chain of epoch keys. A grant carries a facet of a key (presence < shape <
content) to a person and may be passed on only narrower. Keepings seal the
working tree, bottom-up and across closes, into a content-addressed store.
Signposts (cells) are hash-chained journals of moves with a forward-only guard.
Trees merge three ways around what the merger cannot open.

Keys, boxes, signatures and addresses are free constructors of datatypes, so
opening a box is a pattern match and two addresses are equal exactly when what
they address is equal. `Commons` states each operation as a function of one
`State`; the class `Repos.Repo` runs it step by step on fields and a store and is
proved to do exactly that. What holds over every run of operations is proved of
the functions.

How the modules build on each other:

| modules | about |
|---|---|
| `Terms`, `Closes`, `Grants`, `Seals`, `Paths`, `Cells`, `Ancestry` | values and algorithms: keys and boxes, the epoch chain, grants, sealed objects, paths, journals, the bounded ancestry search |
| `Commons`, `Stores`, `Repos` | the state, what each operation does to it, and the program that does it in place |
| `Keyring`, `Upkeep`, `Locks`, `Sharing` | the invariant every operation keeps, exact key lookup, what a lock change and a share do to people |
| `Secrecy`, `Disclosure`, `Discretion` | what can be learned from what is held: from chains and keys, from a whole commons by any coalition, over whole runs |
| `Snapshots`, `Reading`, `Rekeeping`, `History`, `Labels` | keeping and reading back, exact access, keeping again after lock changes, the line of keepings, what labels say |
| `Signposts`, `Moves`, `Pointing`, `Runs`, `Journals`, `Sessions` | journals behind the cell refs, exactly when a signpost moves, whole runs, replay, forward-only, the program carrying out runs |
| `Boundaries`, `Revoking`, `Freezing` | over whole runs: how far a close reaches, who is left out of a lock change, and a close whose path was protected again |
| `Merge`, `MergeLaws`, `Mergers` | the three-way merge, its laws, merging keepings with a person's keys |
| `Rotations`, `Undeletion` | merging over a lock change, and a run after which a deletion is undone |
| `Calendar` | the date formatter |

The main results:

- **Disclosure over whole runs** (`Discretion.RunsDiscloseGrantedKeys`,
  `Discretion.RunsDiscloseGrantedTexts`): in every state that operations with fresh
  randomness reach, from everything on disk and the pooled secrets of any
  coalition, a content or shape key of any close and epoch can be computed, and a
  kept file, a listing, a commit, a move or a label can be learned, if and only if
  a member was once granted the facet that opens it.
- **Key lookup is exact** (`Keyring.KeyLookupIsExact`) and **a lock change splits
  people exactly** (`Locks.NewEpochBelongsToKeepers`, `Locks.KeepersKeepRights`,
  `Locks.TheExcludedKeepOnlyThePast`).
- **Changing a lock tells people apart by name** (`Locks.RotateTells`): whoever is named
  is issued nothing and never finds a key of the new epoch; everyone else who held
  something live is issued one grant that renews exactly that.
- **Keepings last** (`Runs.KeepingsLast`): after any run whatever, each path of an
  earlier keeping that is not inside `.cc` or `.git` reads back as the bytes the working
  tree had there to whoever then holds the needed keys, and as nothing to anyone else.
- **A path is governed from the nearest protected path above it**, name by name, over
  whole runs (`Boundaries.PathsHaveOneGovernor`).
- **A lock change fakes an edit exactly in the folders above what it governs**
  (`Rekeeping.RekeepingIff`).
- **The head ref is only a cache** (`Journals.JournalIsReplay`) and **guarded slots
  only move forward** (`Journals.PinsOnlyMoveForward`), over whole runs; a signpost moves
  exactly with authority, key and readable ancestry (`Pointing.PointIff`).
- **The merge refines the naive path-by-path rule** for mergers who open any part of
  the trees: at every path outside conflicts it picks among the leaves, the base's as far
  as it is seen (`MergeLaws.MergeRefinesSeen`), which is the rule itself exactly if that
  leaf is in sight or the sides agree (`MergeLaws.MergeRefinesNaive`), and so for the
  files of three keepings and whoever merges them (`Mergers.KeepingsMergeNaively`). With
  the exact places of conflicts (`MergeLaws.ConflictIff`) and the exact condition for
  more keys only to sharpen it (`MergeLaws.KeysOnlySharpen`).
- **Merging over a lock change** (`Rotations.RekeyingConflictsIff`,
  `Rotations.RekeyingKeepsTheirs`): a lock change on one side takes no edit from the
  other, and stands in conflict exactly at re-keyed folders that the other side changed
  and the merger cannot go into on both.
- **A close whose path was protected again is frozen** (`Freezing.FrozenForGood`): over any
  run its lock and its grants stay as they are.
- **The program runs as specified** (`Sessions.PerformAll`): operations carried out in
  place are the run of them, so what holds of runs holds of the program.

Where the documentation and the code differ, the model follows the code:

- `docs/DESIGN.md:36-39` promises that changing a lock re-encrypts without faking
  an edit. That holds of files. A folder's plaintext lists the addresses of its
  children (`crates/cc-dag/src/tree.rs:22-37`), so a folder keeps its plain id
  exactly if nothing strictly below it came under another lock (`Rekeeping.RekeepingIff`,
  `Rekeeping.LockChangeFakesEdit`).
- `docs/DESIGN.md:47-50` promises one envelope for the same text, close and epoch.
  Label and kind are part of the envelope, so they have to be the same too
  (`Rekeeping.EntryNowIff`).
- `docs/DESIGN.md:212-213` calls diverged blobs sealed conflicts for those without
  the key. In the code a conflict is sealed exactly when both sides are trees of
  one close (`MergeLaws.ConflictIff`).
- `crates/cc-cell/src/lib.rs:74` and `:269` call rolling back a guarded slot a
  steward's act. The guard in `point` binds the steward like anyone else
  (`Signposts.GuardMeansForward`).
- Having more keys does not always make a merge only more precise: a base folder that
  cannot be opened is merged as no base, and a deletion is then undone
  (`MergeLaws.DeletionComesBack`, at the end of a run `Undeletion.KeysOfTheBaseMatter`).
  `MergeLaws.KeysOnlySharpen` says exactly when it does.
- `docs/DESIGN.md:201-207` calls the comparison of entries rotation-proof and says a
  lock changed on one side merges untouched and unread. That holds of files. A folder in which a
  lock was changed counts as changed, so an edit of it on the other side is a sealed
  conflict for whoever does not hold its label (`Rotations.RekeyingConflictsIff`,
  `Rotations.OthersGetSealed`).
- `crates/close/src/main.rs:494-498` announces that the recipient of a share can now
  read everything there. A holder who is not the steward passes on the first grant that
  is wide enough, which after a lock change is of an old epoch
  (`Sharing.ShareGivesCurrentIff`, `Sharing.KeepersShareThePast`).
- `docs/SIGNPOSTS.md:101-102` says that a lock change revokes the power to point. The
  grant goes on verifying with that power; what stops the move is the current key, which
  is then missing (`Revoking.TheLeftOutMoveNothing`, `Revoking.NoKeyNoMove`).

## Model

| member | source | states |
|---|---|---|
| Terms.UnwrapIff | crates/cc-core/src/grant.rs:66-83 | a wrapped key opens to the key for the addressee's secret and the bound data, and for nothing else |
| Terms.HasPowersIff | crates/cc-core/src/facet.rs:96-98 | powers contain others exactly if they contain every single right of them |
| Terms.RightsAreBits | crates/cc-core/src/facet.rs:76-80 | invoking is the first bit and pointing the second |
| Closes.LoweringComposes | crates/cc-core/src/close.rs:215-229 | lowering a content key in two steps is lowering it in one |
| Closes.LiveRecord.Rotate | crates/cc-core/src/close.rs:97-116 | updates the record in place to the one with one more link, both lanes sealed under the new epoch's keys, and returns the new key |
| Closes.LiveRecord.WalkChain | crates/cc-core/src/close.rs:140-173 | the loop gives what walking link by link gives, errors included |
| Closes.RotateIsSound | crates/cc-core/src/close.rs:93-116 | a lock change fed the current key keeps every link sound, moves no older key and advances the epoch to the minted key |
| Closes.WalkIsExact | crates/cc-core/src/close.rs:118-173 | from the true key of epoch i, in either lane, exactly the true keys of epochs up to i are reached |
| Closes.LanesCommute | crates/cc-core/src/close.rs:129-138 | walking the shape lane gives the shape of what the content lane gives |
| Closes.BindingIsStable | crates/cc-core/src/close.rs:175-185 | the binding key is the same from every epoch and after every lock change |
| Closes.WrongKeyWalksNowhere | crates/cc-core/src/close.rs:155-173 | a key that is not the true key of its epoch walks nowhere |
| Secrecy.ContentDisclosed | crates/cc-core/src/close.rs:93-116 | from the public chains of any closes, one content and one shape key of each, every box and text unrelated to their keys and every grant between others, exactly the content keys of epochs up to the content key's can be computed |
| Secrecy.ShapeDisclosed | crates/cc-core/src/close.rs:196-211 | and exactly the shape keys of epochs up to either key's: shape never yields content, the past never the future |
| Secrecy.BindingDisclosed | crates/cc-core/src/close.rs:175-185 | the binding key, hence every plain id of the close, can be computed exactly from some content key |
| Disclosure.KeysDisclosedIff | crates/cc-core/src/close.rs:93-116 | from everything on disk, a coalition's secrets and the texts they know, a content or shape key of any close and epoch can be computed exactly if a member was ever granted that facet at that epoch or later |
| Disclosure.TextsDisclosedIff | crates/cc-core/src/seal.rs:37-47 | a text they do not know otherwise (file, listing, commit, move or label) can be learned exactly if it is sealed in the store under a facet of a close granted to a member at that epoch or later |
| Disclosure.ALockShutsOut | crates/close/src/main.rs:508-568 | a coalition left out of a lock change can compute no key of the new epoch, whatever anyone has stored |
| Discretion.StepIsDiscreet | crates/close/src/main.rs:418-587 | every operation with fresh randomness keeps seeds apart, every stored object under its close's true keys, and every grant descended from grants on shelves |
| Discretion.RunsDiscloseGrantedKeys | crates/close/src/main.rs:418-587 | over whole runs from a fresh commons: a key can be computed from disk and a coalition's secrets if and only if it was granted to one of them |
| Discretion.RunsDiscloseGrantedTexts | crates/close/src/repo.rs:403-534 | over whole runs: what was kept, listed, committed, moved or labelled can be learned if and only if the facet it is sealed under was granted to one of them |
| Grants.VerifyIff | crates/cc-core/src/grant.rs:248-303 | a grant verifies exactly when every ancestor is signed and alive, each hands down a narrower claim to the next, and the root is the steward's |
| Grants.DelegationIsSound | crates/cc-core/src/grant.rs:8-14 | a verifying grant is narrower than every ancestor in close, facet, powers, prefix and expiry, and every ancestor verifies too |
| Grants.DelegationIsComplete | crates/cc-core/src/grant.rs:129-237 | every chain of a steward's grant and successful attenuations verifies at exactly the times up to the leaf's expiry |
| Grants.GrantSays | crates/cc-core/src/grant.rs:129-237 | a grant issued or passed on says exactly the terms asked for, is signed by its maker, and takes close and epoch from its parent |
| Grants.GrantCarriesKey | crates/cc-core/src/grant.rs:200-221 | through any chain the leaf's holder unwraps exactly the issuing epoch's content key lowered to the leaf's facet, nobody else anything |
| Grants.AttenuateIff | crates/cc-core/src/grant.rs:169-237 | a grant can be passed on exactly by its holder and exactly on narrower terms |
| Grants.TightensIff | crates/cc-core/src/grant.rs:189-196 | one expiry tightens another exactly if nothing outlives the other by it |
| Grants.VerifyNeedsOnlySteward | crates/cc-core/src/grant.rs:250-303 | verification depends on nothing of the record but its steward, so lock changes invalidate no grant |
| Seals.SealWithTrueKey | crates/cc-core/src/seal.rs:84-121 | sealing with the key in force succeeds with an envelope under the true keys of its epoch |
| Seals.OpensExactly | crates/cc-core/src/seal.rs:123-142 | payload and card each open with exactly one key: that of their facet at the object's epoch |
| Seals.SealOutlivesRotation | crates/cc-core/src/seal.rs:82-121 | an envelope stays sealed under the true keys of its close through any lock changes |
| Seals.PlainIdIsIdentity | crates/cc-core/src/id.rs:56-65 | two objects have one plain id exactly if they have one close and one text, whatever their epochs |
| Paths.SegmentsAre | crates/close/src/repo.rs:62-70 | the segments of a typed path are exactly the pieces between slashes of the trimmed path that are neither empty nor a dot, in order |
| Paths.TrimIs | crates/close/src/repo.rs:63 | trimming takes away all white space at both ends and nothing else |
| Paths.SplitOfJoin | crates/close/src/repo.rs:66 | splitting at slashes undoes joining with slashes |
| Paths.SegmentsOfJoin | crates/close/src/repo.rs:62-70 | typing a clean path joined with slashes gives it back, unless trimming takes space off an end |
| Paths.SpellingIsInjective | crates/cc-cell/src/lib.rs:85-88 | two clean paths spelled alike are one path |
| Boundaries.MatchesIff | crates/close/src/repo.rs:262-264 | of clean paths, one is above another as the code compares strings exactly if its names are the first names of the other |
| Boundaries.NearestGoverns | crates/close/src/repo.rs:258-274 | a path is governed by the mapping above it with the most names, the last made among equals, and by nothing exactly if none is above it |
| Boundaries.PathsHaveOneGovernor | crates/close/src/repo.rs:258-274 | after any run from a fresh commons every clean path has exactly one such mapping and its close governs it |
| Cells.CellIdIsInjective | crates/cc-cell/src/lib.rs:79-90 | a cell's identity tells its close and its path |
| Cells.VerifyMoveIff | crates/cc-cell/src/lib.rs:166-198 | a move verifies exactly if its mover signed it, it names the cell, and it carries a grant of the mover's on the cell's close, with the second bit of powers, over the cell's path, authentic at the time of the move |
| Cells.CheckForward | crates/cc-cell/src/lib.rs:270-287 | the guard passes exactly when every guarded slot pinned on both sides stays or moves to a descendant; a refusal names the first that does not |
| Cells.NoneBackwardIff | crates/cc-cell/src/lib.rs:279-285 | no slot is named exactly when all guarded slots move forward |
| Cells.FirstBackwardIs | crates/cc-cell/src/lib.rs:279-285 | the slot named is guarded and does not move forward, and all guarded before it do |
| Cells.Fold | crates/cc-cell/src/lib.rs:293-305 | the loop gives the specified fold, first error included |
| Cells.FoldIff | crates/cc-cell/src/lib.rs:289-305 | a journal folds exactly when every move verifies, stands at its position and names the address before it; its value is then the last move |
| Cells.FoldRefuses | crates/cc-cell/src/lib.rs:293-305 | a journal that does not fold is refused for its first bad move: not verifying, else not naming the address before it, else its number |
| Cells.JournalsAreTamperEvident | crates/cc-cell/src/lib.rs:111-113 | two journals that fold and end at one address are equal throughout |
| Cells.OneOrderingFolds | crates/cc-cell/src/lib.rs:200-222 | at most one ordering of a set of moves folds |
| Ancestry.DescendantIsSound | crates/close/src/repo.rs:765-783 | on any commit graph a positive answer names a real ancestor through parents |
| Ancestry.LinearDescendantIff | crates/close/src/repo.rs:767-783 | on a linear history the answer is yes exactly for commits at distance at most 10,000 |
| History.KeptDescendantIff | crates/close/src/repo.rs:767-783 | on the line that keepings make, yes exactly for a keeping at most 10,000 back with every keeping in between readable |
| History.KeepExtendsHistory | crates/close/src/repo.rs:413-438 | a keeping puts its commit in front of the line there was; a refused one moves nothing |
| Commons.BestMappingIsLongest | crates/close/src/repo.rs:258-274 | a path is governed by the longest registered prefix above it, the last registered among equals, and by nothing exactly if none is above it |
| Upkeep.InitIs | crates/close/src/repo.rs:73-99 | a fresh commons field by field: one person holding everything of the one close, which governs everything, nothing kept, no signpost |
| Upkeep.NewIdentityIs | crates/close/src/repo.rs:125-142 | adding a person is refused for a taken name, and otherwise adds exactly that person |
| Upkeep.ProtectIs | crates/close/src/main.rs:288-302 | protecting is refused without a name, and otherwise founds exactly one close of the person acting, maps the path to it and grants them all of it for good |
| Upkeep.CellNewIs | crates/close/src/repo.rs:627-652 | raising is refused without a name or where a signpost stands, and otherwise declares exactly the path, its governing close, the kind and the guarded slots given |
| Stores.Store.Put | crates/cc-store/src/lib.rs:38-49 | stores under the envelope's own address, once, losing nothing |
| Stores.Store.Get | crates/cc-store/src/lib.rs:51-63 | never returns an object other than the one addressed |
| Stores.Store.SetRef | crates/cc-store/src/lib.rs:65-70 | sets exactly this ref |
| Stores.Store.GetRef | crates/cc-store/src/lib.rs:72-79 | the ref's address, if set |
| Repos.Repo.Init | crates/close/src/repo.rs:73-99 | a fresh commons: one person, the commons close, its founding grant and the root mapping |
| Repos.Repo.AddPerson | crates/close/src/repo.rs:125-142 | adds the person unless the name is taken; then nothing changes |
| Repos.Repo.Establish | crates/close/src/repo.rs:190-222 | records a new close and gives its steward the founding grant |
| Repos.Repo.Governs | crates/close/src/repo.rs:258-274 | the loop finds the governing close of the specification |
| Repos.Repo.Protect | crates/close/src/main.rs:288-302 | founds a close and maps the path to it, or refuses changing nothing |
| Repos.Repo.FindKey | crates/close/src/repo.rs:316-359 | the loop over grants gives what key lookup specifies |
| Repos.Repo.StrongestFacet | crates/close/src/repo.rs:306-314 | the maximum of the facets of all live grants, none exactly if no grant is live |
| Repos.Repo.Share | crates/close/src/main.rs:418-492 | adds exactly the specified grant to the holder, or refuses changing nothing |
| Repos.Repo.Keepers | crates/close/src/main.rs:525-545 | the loop collects exactly the people who keep up, each with best facet, united powers and expiry |
| Repos.Repo.Rotate | crates/close/src/main.rs:508-568 | rotates the record in place and re-issues to exactly the keepers, or refuses changing nothing |
| Repos.Repo.SnapDir | crates/close/src/repo.rs:442-501 | seals a folder bottom-up as specified, the store's growth on refusal included |
| Repos.Repo.Keep | crates/close/src/repo.rs:403-440 | seals tree and commit and moves the main ref only on success |
| Repos.Repo.Resolve | crates/close/src/repo.rs:579-602 | the walk down the head commit's trees gives what is specified, each refusal included |
| Repos.Repo.RaiseCell | crates/close/src/repo.rs:627-652 | declares a cell on a free named path in its governing close, or refuses changing nothing |
| Repos.Repo.Point | crates/close/src/repo.rs:689-763 | authority, key, head, guard, then one sealed move and the ref; any refusal changes nothing |
| Repos.Repo.Descends | crates/close/src/repo.rs:765-783 | the search gives its specification; a counter raised at each pop never exceeds 10,001 |
| Sessions.Perform | crates/close/src/main.rs:168-415 | carrying out an operation in place takes the fields to the run's next state, keeps all that runs keep and loses nothing recorded |
| Sessions.PerformAll | crates/close/src/main.rs:168-415 | carrying out any operations one after another is exactly the run of them, from any state to one that keeps all that runs keep |
| Keyring.KeyLookupIsExact | crates/close/src/repo.rs:316-359 | a key is found exactly if some live verifying grant is wide and recent enough, and it is the true key of that epoch |
| Keyring.LiveOnIff | crates/close/src/repo.rs:316-330 | a grant counts for a close exactly if it is of that close and its whole lineage is authentic now |
| Keyring.KeyLookupIgnoresOrder | crates/close/src/repo.rs:289-304 | whatever order and multiplicity the grants are stored in |
| Keyring.EveryKeyHasAuthority | crates/cc-core/src/grant.rs:8-14 | whoever finds a key has an authentic chain of grants from the steward, every link wide enough for it |
| Upkeep.ShareGrantCarries | crates/close/src/main.rs:434-490 | sharing succeeds exactly for a steward with the current key or the holder of a wide enough live grant, and hands over the true key of the shared facet at the current epoch if by the steward, else at that of the first wide enough grant in stored order |
| Sharing.ShareTerms | crates/close/src/main.rs:434-490 | from the steward a share has the asked expiry, no prefix and no parent; from a holder it has the first wide enough grant in stored order as parent, its prefix, and lives while both the asked expiry and the parent's allow |
| Sharing.ShareLivesFor | crates/close/src/main.rs:473-476 | a share is live exactly for the days asked for and while what it was shared from lives |
| Sharing.ShareReaches | crates/close/src/main.rs:418-492 | someone who had no grant of the close finds a key of an epoch after a share exactly up to the shared epoch, for the days asked for, and while the sharer's own grant lives |
| Sharing.ShareGivesCurrentIff | crates/close/src/main.rs:451-464 | a share gives such a person the current key exactly if the steward makes it or the sharer's first wide enough grant is of the current epoch |
| Sharing.KeepersShareThePast | crates/close/src/main.rs:455-464 | after a lock change a keeper passes on the same grant as before, as long as it lives: of an epoch before the new one |
| Upkeep.RotateChangesLock | crates/close/src/main.rs:508-568 | every successful rotation changes the lock of the close governing its path: one link, one new grant per keeper, nothing else |
| Locks.RotateSucceedsIff | crates/close/src/main.rs:508-523 | changing a lock goes through exactly for the steward of the governing close who holds its current content key |
| Locks.KeepsUpIff | crates/close/src/main.rs:525-545 | a keeper is exactly someone known, not named, who holds a grant of the close that is live |
| Locks.RotateTells | crates/close/src/main.rs:525-568 | whoever is named, unknown or without a live grant keeps exactly their grants and never finds a key of the new epoch; everyone else gets exactly one grant more: the widest facet, all rights and the last widest expiry of their live grants |
| Upkeep.LockChangeKeeps | crates/close/src/main.rs:547-568 | a lock change keeps the invariant and loses nothing recorded |
| Locks.KeepersKeepRights | crates/close/src/main.rs:525-568 | every keeper has, at that moment, the best facet and the live powers held before |
| Locks.KeepersReachEveryEpoch | crates/close/src/main.rs:552-568 | and the keys of that facet for every epoch up to the new one |
| Locks.TheExcludedKeepOnlyThePast | crates/close/src/main.rs:578-581 | whoever is left out has no key of the new epoch at any time and unchanged answers for older ones |
| Locks.WithoutNewGrants | crates/close/src/repo.rs:317-359 | without a new grant, any number of lock changes and other operations leave older answers alone and give nothing newer |
| Locks.NewEpochBelongsToKeepers | crates/close/src/main.rs:525-568 | at any time exactly the keepers find a key of the new epoch, each up to the best facet held at the change and while the expiry taken over from the last of the widest grants has not passed |
| Locks.KeepersRightsLater | crates/close/src/main.rs:537-543 | at any later time a keeper has what the older grants then allow, and while the reissued grant lives all that was united in it |
| Locks.KeepersRightsDiffer | crates/close/src/main.rs:537-543 | later powers and best facet differ from those without the lock change exactly while the reissued grant outlives a grant whose power, or whose facet, it took over |
| Locks.BestFacetIs | crates/close/src/repo.rs:306-314 | the best facet is that of some live grant and bounds that of every live grant; none exactly if no grant is live |
| Locks.LivePowersAre | crates/close/src/main.rs:538-542 | a right is among the live powers exactly if some live grant carries it |
| Snapshots.OpensIff | crates/close/src/repo.rs:382-393 | a stored object opens to its text exactly for holders of its kind's facet of its close at its epoch |
| Snapshots.SnapNodeKeeps | crates/close/src/repo.rs:442-534 | sealing a working tree, when it succeeds, stores every file and a true listing of every folder; the store only grows |
| Reading.NodeAtIs | crates/close/src/repo.rs:446-448 | what is ever kept of a working tree at a path is what it has there, and nothing at a path through `.cc` or `.git` |
| Reading.KeepKeeps | crates/close/src/repo.rs:403-440 | a keeping keeps the invariant; on success commit and tree are stored, its parent is the previous keeping, and only the main ref moves |
| Reading.ReadsIff | crates/close/src/repo.rs:586-600 | at any path of a kept tree: the kept bytes for who holds shape of every folder on the way and content of the file, each at its epoch; otherwise nothing |
| Reading.CommitReadsIff | crates/close/src/repo.rs:564-602 | from a commit, at every path not through `.cc` or `.git`: the bytes the working tree had, for who also holds content of the commons at the commit's epoch; otherwise nothing |
| Reading.KeeperReadsBack | crates/close/src/repo.rs:403-440 | right after keeping, the keeper reads back every file of the working tree that is not in `.cc` or `.git` |
| Reading.WalksIff | crates/close/src/repo.rs:586-600 | walking down a kept tree ends at what was kept there, file or folder, exactly for who holds the labels of the folders on the way |
| Reading.ResolvesIff | crates/close/src/repo.rs:579-602 | the same from the last keeping, for who holds content of its commit |
| Rekeeping.SnapNodeIs | crates/close/src/repo.rs:442-534 | sealing a working tree succeeds exactly if the keeper holds the current content key everywhere in it, and gives an entry that depends on nothing but the tree, its place and the closes |
| Rekeeping.MayKeepIff | crates/close/src/repo.rs:442-512 | that is: at every path of the working tree not through `.cc` or `.git` the keeper holds the current content key of the close that governs it |
| Rekeeping.SealCommitIs | crates/close/src/repo.rs:413-438 | the commit sealed names the tree and its plain id, the previous keeping, who keeps, the message and the time |
| Rekeeping.KeepSucceedsIff | crates/close/src/repo.rs:403-440 | the same of a whole keeping, with the commons |
| Rekeeping.EntryNowIff | docs/DESIGN.md:47-50 | two sealings have one plain id exactly for one close and text, and one address exactly if kind, label and epoch are the same too |
| Rekeeping.RekeepingIff | docs/DESIGN.md:36-39 | keeping an unchanged tree again, whatever was done in between, keeps the plain id exactly if its close is the same and nothing strictly below came under another close or lock, and the address exactly if the top's lock is the same too |
| Rekeeping.UndisturbedIff | docs/DESIGN.md:36-39 | nothing below came under another close or lock exactly if no path strictly below that is not through `.cc` or `.git` did |
| Labels.FileLabel | crates/close/src/repo.rs:512-532 | a file's label says its name, type and size class, and its line in the listing the last two only under an open outline |
| Labels.FolderLabel | crates/close/src/repo.rs:475-500 | a folder's label says its whole path and, in digits that read back, how many names it keeps |
| Labels.CommitLabel | crates/close/src/repo.rs:413-438 | a commit's label says the size class of its message and nothing of it |
| Labels.MoveLabel | crates/close/src/repo.rs:750-762 | a move's label says, in digits that read back, how many moves came before it, and who moved |
| Rekeeping.KeepingAgainIff | crates/close/src/repo.rs:414-416 | the same of the trees that two keepings commit |
| Rekeeping.LockChangeFakesEdit | docs/DESIGN.md:38-39 | a lock change gives every folder directly above something it governs a new plain id although nothing was edited |
| Signposts.HeadIsCache | crates/cc-cell/src/lib.rs:289-305 | following `prev` from a cell's ref yields a journal whose fold is the move at the ref |
| Signposts.PinnedIs | crates/close/src/repo.rs:730-737 | pinning slots on a value: each named slot holds the last pin given to its name, every other slot what it held, and no other slot appears |
| Signposts.PinsAreUnique | crates/close/src/repo.rs:730-737 | and only one value is that |
| Signposts.GuardMeansForward | crates/close/src/repo.rs:739-749 | a value that passes the guard, for any mover, keeps every slot and moves guarded ones only to true descendants |
| Signposts.GuardedSlotsOnlyMoveForward | crates/cc-cell/src/lib.rs:266-287 | over a cell's whole journal no slot vanishes and guarded pins only move to descendants |
| Moves.PointExtendsJournal | crates/close/src/repo.rs:692-763 | every successful move extends the named cell's journal by one verified, linked, forward move in which each named slot holds its last given pin and every other slot what it held, saying who moved it, when and why; no other journal changes |
| Pointing.PointIff | crates/close/src/repo.rs:692-763 | a signpost moves exactly for someone known with an authentic grant of its close, with the right to point, over its path, and the current content key, if every guarded slot goes on from where it is pinned; otherwise the first of these that fails is the refusal |
| Pointing.MayGoIff | crates/close/src/repo.rs:739-749 | to a keeping a guarded slot goes on exactly if that is the one pinned or comes at most 10,000 after it with all after that one readable to the mover |
| Runs.RunKeeps | crates/close/src/repo.rs:125-763 | over any run of operations by anyone the invariant holds, nothing recorded is lost and the line of keepings grows only at its front |
| Revoking.TheLeftOutMoveNothing | docs/SIGNPOSTS.md:99-102 | after any run from a lock change, someone left out of it who got no new grant can move no signpost of the close |
| Revoking.NoKeyNoMove | crates/close/src/repo.rs:704-731 | without the current content key a move is refused: for want of the key if a grant with the power verifies, else for want of the power |
| Freezing.FrozenIff | crates/close/src/repo.rs:258-274 | no path is governed by a close exactly if each of its mappings has a later one of the same prefix |
| Freezing.FrozenForGood | crates/close/src/main.rs:288-302 | from then on, over any run, the lock of the close and everyone's grants of it stay as they are |
| Freezing.FrozenKeys | crates/close/src/repo.rs:316-359 | so at any time everyone finds the same keys of it as before the run |
| Runs.KeepingsLast | crates/close/src/repo.rs:579-602 | after any further run, an earlier keeping reads back, at every path not through `.cc` or `.git`, as the bytes the working tree had to who then holds the needed keys, and as nothing to anyone else |
| Journals.JournalIsReplay | crates/close/src/repo.rs:730-762 | after any run a cell's journal folds to the move at the ref and has one value for each move that was not refused, each the value before with that move's slots pinned on top |
| Journals.ReplayIsUnique | crates/close/src/repo.rs:730-737 | there is only one such sequence of values |
| Journals.PinsOnlyMoveForward | crates/close/src/repo.rs:739-743 | over whole runs slots stay pinned and a guarded pin is the same as or an ancestor of every later one |
| Merge.MergeTrees | crates/cc-dag/src/merge.rs:83-120 | the loop over names gives the specified merge and ends for every source on which some rank falls from tree to subtree |
| Merge.MergeDiverged | crates/cc-dag/src/merge.rs:122-164 | recursion, sealed conflict or plain conflict as specified |
| Merge.Conflicts | crates/cc-dag/src/merge.rs:48-67 | reports every conflict at any depth exactly once, all at different paths, in the order of names at every level, each with its names joined with slashes and the mark of that conflict |
| Merge.IsClean | crates/cc-dag/src/merge.rs:44-46 | clean exactly if no path holds a conflict |
| MergeLaws.MergeRefinesSeen | crates/cc-dag/src/merge.rs:1-9 | whatever part of the trees the merger opens, at every path not under a conflict the merge holds, up to identity of plain id and close, what path-by-path three-way picks among the leaves a full source finds there, taking as the base's none below a base folder that the merge goes past unopened |
| MergeLaws.MergeRefinesNaive | crates/cc-dag/src/merge.rs:1-9 | there it holds what path-by-path three-way picks among all three leaves exactly if the base's leaf is in the merge's sight or the sides agree on theirs |
| MergeLaws.ConflictIff | crates/cc-dag/src/merge.rs:93-163 | a conflict stands exactly where the three entries differ, the sides are not a drawer openable on both, and everything above diverges and opens; sealed exactly for two trees of one close |
| MergeLaws.ComparesAndOpens | crates/cc-dag/src/merge.rs:71-81 | entries are compared by plain id and close, and both sides are gone into exactly if they are folders of one close that both open |
| MergeLaws.MergedIs | crates/cc-dag/src/merge.rs:93-163 | wherever the merge gets to, it holds ours if the sides are the same or theirs is the base's, theirs if ours is the base's, each with its own address; else the merge of both if they open, else the conflict of the three |
| MergeLaws.MergeIsSymmetric | crates/cc-dag/src/merge.rs:83-120 | exchanging the sides mirrors the merge at every depth |
| MergeLaws.MergeUnits | docs/DESIGN.md:205-207 | if one side is the base the merge is the other side, whole, in either order, and the same whatever trees can be opened |
| MergeLaws.MergeOfEquals | docs/DESIGN.md:204 | merging sides that agree is either of them, whatever the base and the keys |
| MergeLaws.KeysOnlySharpen | crates/cc-dag/src/merge.rs:3-9 | a source that opens more keeps every take and unsealed conflict at every depth, turning only sealed conflicts into subtrees, exactly if every base entry the merge looks at stays the same, or the sides agree there, or it is a drawer now open on both sides and changed on both |
| MergeLaws.AgreedBaseSharpens | crates/cc-dag/src/merge.rs:3-9 | so it does for every merge without a base or whose base entries were all in sight before |
| MergeLaws.DeletionComesBack | crates/cc-dag/src/merge.rs:136 | a file one side deleted and the other left alone is in the merge of who cannot open the base folder and not in the merge of who can |
| Undeletion.KeysOfTheBaseMatter | crates/cc-dag/src/merge.rs:136 | a run from a fresh commons after which one person's merge of the three keepings on the main line drops a deleted file exactly up to the time her grant on the base folder's close expires, and brings it back at every later time |
| MergeLaws.ContentAddressedIsWellFounded | crates/cc-dag/src/merge.rs:14-18 | the merge ends over every content-addressed source |
| Mergers.GrantsOnlySharpen | crates/close/src/repo.rs:382-387 | whatever happens in a commons, being able to open more only sharpens a person's merge exactly if no base entry come into sight makes a difference |
| Mergers.CommonsIsCoherent | crates/cc-dag/src/tree.rs:22-37 | in every commons, exactly the folders among true entries are listings of the store, and equal plain id and close mean equal kind and listing |
| Mergers.LeafIsFile | crates/close/src/repo.rs:442-501 | the leaves below a kept folder's listing are exactly the files kept under it |
| Mergers.KeepingsMergeNaively | crates/cc-dag/src/merge.rs:1-9 | merging three keepings with any person's keys: at every path not under a conflict the merge holds the file that the naive rule picks among those kept there, the base's as far as it is seen; what the rule picks among all three exactly if the base's file is in sight or the other two agree |
| Rotations.RekeyingConflictsIff | docs/DESIGN.md:201-212 | merging any tree, over a keeping, with its re-keeping after lock changes: a conflict stands exactly where the merge gets to, a folder was re-keyed, theirs differs from it before and after, and is not a folder of the close that opens together with it; sealed exactly if it is one of the close |
| Rotations.OpenersMergeClean | docs/DESIGN.md:208-209 | no conflict anywhere for whoever opens, wherever a folder was re-keyed, it and a folder of its close on the other side |
| Rotations.OthersGetSealed | docs/DESIGN.md:209-212 | a sealed conflict at every re-keyed folder at the top that the other side changed, for whoever does not hold its label |
| Rotations.RekeyingKeepsTheirs | docs/DESIGN.md:205-207 | at every path not under a conflict the merge holds, up to identity of plain id and close, the leaf of theirs |
| Calendar.Date | crates/close/src/main.rs:806-828 | for every u64 the computation stays in range and gives the converted date, a valid hour and minute, and the seconds left under a minute |
| Calendar.ConsecutiveDays | crates/close/src/main.rs:809-819 | every day number gives a valid Gregorian date and consecutive numbers give consecutive dates |
| Calendar.ConversionCountsDays | crates/close/src/main.rs:809-819 | the closed form gives the date reached by counting days from 1970-01-01 |
| Calendar.LaterDaysAreLater | crates/close/src/main.rs:809-819 | later days have later dates, so no two days share one |

## Left out

- Cryptographic internals and key generation: hashes, boxes, signatures and Diffie-Hellman agreement (section 6.1 of RFC 7748) are ideal constructors.
- Encodings (postcard, JSON): encoding is injective with disjoint images; a file whose bytes are the encoding of a key, tree, commit or move is that encoded text.
- The file system: directories, temporary files, renames and I/O errors; a missing record, person or object is an error, a damaged file is not modelled except as `Corrupt` in the store.
- The clock and randomness are parameters: one `now` for each operation, seeds and ephemeral secrets as numbers. Runs ask only that a new close has a new identity; the disclosure theorems ask for fresh seeds and for ephemeral secrets that nobody keeps.
- Disclosure.TextsDisclosedIff: assumes that nobody kept a bare key as a file, because whoever reads that file then has the key; texts are learned whole, so names and addresses inside a listing are learned with the listing. What one learns from sizes, outlines or equal plain ids is not stated.
- Widths of counters: epochs (u32), positions and times (u64) are unbounded numbers, except in `Calendar`, where every intermediate value is shown to fit.
- Grant files sort by a four-digit number, so from the ten-thousandth grant of a person on their order is not the order of arrival; key lookup does not depend on it (`Keyring.KeyLookupIgnoresOrder`), `share` and `point` take the first fitting grant in stored order.
- MergeLaws.MergeRefinesNaive: takes the leaves from a source that opens every tree of a family in which equal plain id and close mean equal kind and tree; `Mergers.CommonsIsCoherent` provides both for kept trees.
- Mergers.KeepingsMergeNaively: leaves out working trees in which a file is itself the encoding of a listing, because such a file and a folder have one plain id.
- Names in a folder come in the order given, each once; the source sorts them, which fixes the order of writing and nothing else.
- A file's content type and size class (`guess_type`, `size_class_for` of its bytes) are given with the file.
- The `.cell` file that raising a signpost writes into the working tree.
- How `point` on the command line names keepings (`resolve_keep_ref`) and that it refuses an empty list of slots; the model takes addresses, as `repo.rs` does.
- The command line, printing, rendering of trees and trails, hints, the glossary, and the text form of `date`; switching the acting person is one operation, `ActAs`.
- Caveats on grants, which no code enforces; notes and receipts, which no code writes.
- Features that exist only in the design documents: sync, name-veiling, actuators, approvals, leases, drift, quorum stewardship.
- `open_card`: reading a label follows `open_tree` with the card's box (`Seals.OpensExactly`).
