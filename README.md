# Memory — the knowledge store of a thinking notebook, in Dafny

This project models `Memory`, the in-process store of the MindForger
notebook (`lib/src/mind/memory.h`). Memory owns the Outlines (documents) of a
repository together with their Notes, the outline Stencils and the note
Stencils (templates), and a "limbo" of Outlines created from a stencil but
not yet learned. Beside the owned Outlines it keeps `outlinesMap`, an index
from Outline key to Outline. The central invariant is that this index mirrors
the owned Outlines: its keys are exactly their keys, each key leads to the
Outline that carries it, and no key is used twice.

Files:

- `model.dfy` (module `Model`): the entities as values (`Outline`, `Note`,
  `Stencil`, `ResourceType`), the specification functions `NotesCount` and
  `AllNotes`, the key set, and list erasure by key (`WithoutKey`), with the lemmas about them.
- `ordering.dfy` (module `Ordering`): the lexicographic string order, total
  preorders and an in-place insertion sort on an array under any of them.
- `memory.dfy` (module `Mind`): the class `Memory` with the fields of
  `memory.h:47-75`, its invariant `Valid()` (built on the heap-free predicate
  `Mirrors`), and its operations. `Learn`, `Amnesia`, `CreateOutline`,
  `Remember` and `Forget` change state and state the whole new state in terms
  of the old. The queries, `CreateNote` and `RememberKey` change nothing (they
  have no `modifies` clause). `SortByName` and `SortByRead` reorder the
  caller's vector, an `array` here, in place.
- `outline_test.dfy` (module `OutlineTest`): the two scenarios of
  `lib/test/src/mind/outline_test.cpp`, written as client methods whose
  postconditions are the test's expectations.

Collaborators that do I/O are parameters, not code. The repository
indexer's scan is the `RepositoryIndex` argument of `Learn`. The markdown
representation is a `Representation`, a pair of functions from a file path to
an Outline or a Note, fixed when a `Memory` is constructed. The persistence
calls of `Remember`, `RememberKey` and `Forget` are no-ops. A learned Outline
is keyed by its file path. How a key is derived from a name is a
`KeyScheme`, also fixed at construction: for each name it gives a sequence of
candidate keys, distinct from one another, and no key format is assumed.

The header declares Memory's operations without their bodies; the model's
bodies are these choices:
- `Learn` names each Stencil after the name (or, for a note stencil, the
  title) its file parses to.
- `CreateOutline` gives the new Outline a limbo key from `CreateLimboKey`,
  derived from the stencil's name.
- `CreateOutlineKey` and `CreateLimboKey` take the first candidate that is
  not in use. A limbo key differs from every key in use, in limbo or in the
  index, when it is made.
- `Remember(outline)` gives the Outline a persisted key from
  `CreateOutlineKey`, derived from its name, appends it and indexes it under
  that key, and erases from limbo the entry carrying the key the Outline
  arrived with. The Outline as remembered is returned.
- `Forget(outline)` finds the owned Outline with that key and erases it from
  the list and from the index. An unknown key changes nothing and is
  reported by a `false` result.
- `RememberKey(key)` reports whether the key is known.
- `GetAllNotes` appends to the vector it is given and, when asked, sorts the
  whole result.
- `sortByName` orders by name, lexicographically.
- `sortByRead` orders by last-read timestamp, most recent first.

## Model

| member | source | states |
|---|---|---|
| `Mind.Memory.constructor` | lib/src/mind/memory.h:78 | a new Memory is unaware, keeps the given cache flag, and has every collection and the index empty |
| `Mind.Memory.Amnesia` | lib/src/mind/memory.h:93-96 | "forget everything": afterwards not aware; outlines, notes, both stencil lists, limbo and the index are empty; the invariant holds |
| `Mind.Memory.IsAware` | lib/src/mind/memory.h:91 | reports whether a repository has been learned since construction or the last amnesia (the flag `Learn` sets and `Amnesia` and the constructor clear) |
| `Mind.Memory.Learn` | lib/src/mind/memory.h:87-91 | afterwards aware; the owned Outlines are exactly the scanned outline files parsed and keyed by path, in scan order; the index has exactly those paths as keys; both stencil lists hold the scanned stencils of their kind; limbo and notes are empty |
| `Mind.LearnTwice` | lib/src/mind/memory.h:87-91 | learning the same scan a second time leaves the whole state exactly as the first time did, whatever Memory held before |
| `Mind.MirrorsDetermined` | lib/src/mind/memory.h:67-75 | the index is determined by the owned Outlines: two indexes that both mirror them are equal |
| `Mind.Memory.GetStencils` | lib/src/mind/memory.h:98 | with the default OUTLINE kind it returns the outline stencils, with NOTE the note stencils, and every returned stencil is of the requested kind |
| `Mind.Memory.CreateOutline` | lib/src/mind/memory.h:100-103 | the Outline parsed from the stencil's file, under a key no Outline in limbo or in the index has, is appended to limbo and returned; the owned Outlines, the index, and so both counters, are unchanged |
| `Mind.Memory.CreateOutlineKey` | lib/src/mind/memory.h:145 | returns a key the index does not use: the first candidate derived from the name that does not collide |
| `Mind.Memory.CreateLimboKey` | lib/src/mind/memory.h:146 | returns a key neither limbo nor the index uses: the first candidate derived from the name that does not collide |
| `Mind.Probe` | lib/src/mind/memory.h:145-146 | trying the candidates for a name in turn ends, for any finite set of keys in use, with the first candidate not in that set |
| `Mind.Memory.CreateNote` | lib/src/mind/memory.h:104-107 | returns the Note parsed from the stencil's file and changes nothing in Memory (no Outline, index entry or count is learned) |
| `Mind.Memory.RememberKey` | lib/src/mind/memory.h:109-112 | changes no Outline and no index entry; reports the save as done exactly when some owned Outline has the key, which is exactly when the index has it |
| `Mind.Memory.Remember` | lib/src/mind/memory.h:114-117 | the Outline, as edited by the caller, gets a persisted key the index did not use (the first free candidate for its name), is appended and indexed under it; every previously indexed key keeps its Outline; the Outline count grows by one and the Note count by its Notes; the limbo entry with the key it arrived with leaves limbo, even when the caller changed the Outline after creating it; the invariant is preserved |
| `Mind.Memory.Forget` | lib/src/mind/memory.h:119-122 | the Outline with that key leaves the owned list and the index, the Outline count drops by one and the Note count by exactly that Outline's Notes; an unknown key changes nothing and is reported as such; the invariant is preserved |
| `Mind.Memory.IndexOf` | lib/src/mind/memory.h:119-122 | finds the position of the owned Outline with a key, or reports that no owned Outline has it |
| `Mind.Memory.OutlinesCount` | lib/src/mind/memory.h:130-133 | the number of owned Outlines equals the number of keys in the index |
| `Mind.Memory.GetNotesCount` | lib/src/mind/memory.h:140-143 | the count summed Outline by Outline equals the sum of note counts and the length of the flattened note list |
| `Mind.Memory.GetOutlines` | lib/src/mind/memory.h:148-154 | returns the owned Outlines, each of which is the one the index holds under its key |
| `Mind.Memory.GetOutline` | lib/src/mind/memory.h:156-162 | returns an Outline exactly when some owned Outline has the key, and then it is an owned Outline with that key; otherwise none (null) |
| `Mind.Memory.GetAllNotes` | lib/src/mind/memory.h:164-167 | without sorting, the given vector followed by every Outline's Notes in order; with sortByRead, a permutation of that ordered most recently read first |
| `Mind.Memory.SortByName` | lib/src/mind/memory.h:173 | reorders the vector in place so that names ascend lexicographically, keeping the same elements |
| `Mind.Memory.SortByRead` | lib/src/mind/memory.h:174 | reorders the vector in place so that last-read timestamps descend, keeping the same elements |
| `Mind.MirrorsLookup` | lib/src/mind/memory.h:156-162 | under the invariant, a key is in the index exactly when an owned Outline carries it, and the index then gives that Outline |
| `Mind.MirrorsAppend` | lib/src/mind/memory.h:114-117 | appending an Outline under a key the index lacks, and indexing it, preserves the invariant |
| `Mind.MirrorsEraseAt` | lib/src/mind/memory.h:119-122 | erasing an owned Outline and its key preserves the invariant, equals erasing every entry with that key, and removes exactly its Notes from the count |
| `Mind.NameLeqIsTotalPreorder` | lib/src/mind/memory.h:173 | ordering Outlines by name is total and transitive, so it can drive the sort |
| `Ordering.InsertionSort` | lib/src/mind/memory.h:173-174 | under any total preorder the array ends sorted and is a permutation of what it held |
| `Ordering.LexLeqTotal` | lib/src/mind/memory.h:173 | of two names one always precedes the other |
| `Ordering.LexLeqTransitive` | lib/src/mind/memory.h:173 | name order is transitive |
| `Model.NotesCountConcat` | lib/src/mind/memory.h:140-143 | the Note count of two lists of Outlines together is the sum of their counts |
| `Model.AllNotesConcat` | lib/src/mind/memory.h:164-167 | the flattened Notes of two lists together are the first list's followed by the second's |
| `Model.AllNotesLength` | lib/src/mind/memory.h:164-167 | flattening the Notes of all Outlines yields exactly as many Notes as the Note count |
| `Model.KeysCount` | lib/src/mind/memory.h:67-75 | Outlines with unique keys have as many distinct keys as there are Outlines |
| `Model.KeysCons` | lib/src/mind/memory.h:67-75 | with unique keys, the first Outline's key joins the others' keys and is not among them |
| `Model.SameKeySameOutline` | lib/src/mind/memory.h:67-75 | among Outlines with unique keys, two with the same key are the same Outline |
| `Model.WithoutKeyMembers` | lib/src/mind/memory.h:119-122 | erasing by key keeps exactly the entries with another key |
| `Model.WithoutKeyAt` | lib/src/mind/memory.h:119-122 | with unique keys, erasing by the key of the entry at an index is erasing that one entry |
| `Model.WithoutKeyAbsent` | lib/src/mind/memory.h:119-122 | erasing a key no Outline carries leaves the list unchanged |
| `Model.UniqueKeysWithoutAt` | lib/src/mind/memory.h:119-122 | erasing one Outline keeps the keys unique |
| `Model.KeysWithoutKey` | lib/src/mind/memory.h:119-122 | erasing by key removes exactly that key from the key set |
| `Model.NotesCountWithoutAt` | lib/src/mind/memory.h:140-143 | erasing one Outline lowers the Note count by exactly its Notes |
| `OutlineTest.NewAndDeleteOutline` | lib/test/src/mind/outline_test.cpp:39-60 | learning one outline with one note gives counts 1 and 1; forgetting it succeeds and gives 0 and 0 |
| `OutlineTest.NewOutlineFromStencil` | lib/test/src/mind/outline_test.cpp:62-107 | the learned outline stencil is the default `GetStencils()` result; two Outlines created from stencils get distinct keys and, once given their titles and remembered, give 2 Outlines, as many Notes as the two stencil files parse to, and an empty limbo |

## Left out

- Mind.Memory.Remember: always assigns a fresh persisted key; an Outline that already carries a persisted key of its own is re-keyed too. The new key is returned with the remembered Outline rather than written through the caller's pointer.
- Key namespaces: limbo keys and persisted keys come from two candidate functions of the `KeyScheme`, but the model does not promise that no limbo candidate equals a persisted candidate. A limbo key avoids only the keys in use when it is made.
- `createOutlineKey` and `createLimboKey` (`memory.h:145-146`): no key format, sanitisation or collision suffix is modelled. Only the probing is: a `KeyScheme` supplies the candidates.
- Mind.Memory.Forget: an unknown key is reported by a `false` result, not by a loud failure such as an exception.
- OutlineTest.NewOutlineFromStencil: the test's count of 3 Notes depends on what its two stencil files parse to, and the manual stencil's file is never written in the test. The model states the count as the sum of the two parses' note counts instead.
- Mind.Memory.GetOutline: the lazy load of a skeleton Outline's notes and the `cache` flag's re-load from disk are I/O. The model's Outlines always carry their Notes, so `GetOutline` only looks the key up, and `cache` is kept but has no effect.
- Persistence (`memory.h:64`): `Remember`, `RememberKey` and `Forget` save or delete nothing. A failed save or delete, and any rollback after it, is not modelled.
- Mind.Memory.RememberKey: an unknown key is reported by a `false` result rather than by an error.
- Markdown parsing (`memory.h:63`): it is the opaque `Representation` given at construction. A file that fails to parse is not modelled.
- Repository scanning (`memory.h:61`, `getRepositoryIndexer`): it is the `RepositoryIndex` passed to `Learn`, which requires each outline file to be listed once, as a directory listing does.
- `getOutlineMarkdownsSize` (`memory.h:135-138`): it depends on file sizes on disk.
- Ontology, `getOntology` and `toOutlineType` (`memory.h:62, 128, 178`): their implementation is not part of this model. Outlines carry no type or tags.
- `setMindScope` and `MindScopeAspect` (`memory.h:65, 85`): they are not part of this model.
- The flat `notes` field (`memory.h:68`): the header does not show which operation fills it; the model leaves it empty. `Learn`, `Amnesia` and the constructor empty it, and nothing else touches it.
- Pointer identity: Outlines are values. Limbo erasure finds the Outline by the key it carries, which `CreateOutline` makes distinct from every other key in limbo; an edit a caller makes through a pointer to an Outline already held by Memory is not modelled.
- Deleted copy and move operations, and the destructor (`memory.h:79-83`): memory management has no counterpart here.
- Mind.Memory.SortByName: stability among equal names is not stated.
- Mind.Memory.SortByRead: stability among equal timestamps is not stated.
- Mind.Memory.OutlinesCount: the `unsigned` counters are unbounded `nat`s. A wrap-around past 2^32 Outlines or Notes is not modelled.
