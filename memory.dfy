/**
 * Memory: the in-process knowledge store of the thinking notebook. It owns
 * the learned Outlines (with their Notes), the outline and note Stencils and
 * the "limbo" of created-but-unlearned Outlines, and keeps a key -> Outline
 * index that mirrors the owned Outlines.
 *
 * Collaborators that do I/O are not modelled as code: the repository
 * indexer's directory scan is a parameter of Learn, the markdown
 * representation is a pair of functions fixed at construction, key
 * derivation is a KeyScheme fixed at construction, and the persistence
 * calls of Remember and Forget are no-ops.
 */
module Mind {
  import opened Model
  import opened Ordering

  /** What the repository indexer finds: outline files and the two kinds of stencil file. */
  datatype RepositoryIndex = RepositoryIndex(
    outlineFiles: seq<string>,
    outlineStencilFiles: seq<string>,
    noteStencilFiles: seq<string>)
  {
    /** A directory scan lists each outline file once. */
    ghost predicate Valid()
    {
      forall i, j :: 0 <= i < j < |outlineFiles| ==> outlineFiles[i] != outlineFiles[j]
    }
  }

  /** The markdown representation: what a file parses to, as an Outline or as a Note. */
  datatype Representation = Representation(outline: string -> Outline, note: string -> Note)

  /** The Outline learned from the file at `path`: its parse, keyed by the path. */
  function LearnedOutline(representation: Representation, path: string): Outline
  {
    representation.outline(path).(key := path)
  }

  /** The Outlines learned from the given files, in scan order. */
  function LearnedOutlines(representation: Representation, files: seq<string>): seq<Outline>
  {
    seq(|files|, i requires 0 <= i < |files| => LearnedOutline(representation, files[i]))
  }

  /** The Stencils of the given kind loaded from the given files; a Stencil is named by its document's title. */
  function LoadedStencils(representation: Representation, files: seq<string>, kind: ResourceType): seq<Stencil>
  {
    seq(|files|, i requires 0 <= i < |files| =>
      Stencil(files[i],
              if kind == OutlineResource then representation.outline(files[i]).name
              else representation.note(files[i]).title,
              kind))
  }

  /**
   * How keys are derived from a name: `outlineKey(name, n)` and
   * `limboKey(name, n)` are the n-th candidate key for `name`. No format is
   * fixed.
   */
  datatype KeyDerivation = KeyDerivation(outlineKey: (string, nat) -> string, limboKey: (string, nat) -> string)

  /**
   * A key derivation that gives distinct candidates for distinct attempts,
   * so that probing ends for any finite set of keys in use. (The witness
   * only shows that one exists.)
   */
  type KeyScheme = keys: KeyDerivation | Injective(keys.outlineKey) && Injective(keys.limboKey)
    witness KeyDerivation((name: string, n: nat) => name + seq(n, _ => '#'), (name: string, n: nat) => name + seq(n, _ => '~'))

  /** Distinct attempts for one name give distinct candidates. */
  ghost predicate Injective(candidate: (string, nat) -> string)
  {
    forall name, m: nat, n: nat :: m != n ==> candidate(name, m) != candidate(name, n)
  }

  /**
   * The first candidate key for `name` that is not in `used`: try the
   * candidates in turn until one does not collide.
   */
  method Probe(candidate: (string, nat) -> string, name: string, used: set<string>) returns (key: string)
    requires Injective(candidate)
    ensures key !in used
    ensures exists n: nat :: key == candidate(name, n) && forall m: nat :: m < n ==> candidate(name, m) in used
  {
    var n: nat := 0;
    key := candidate(name, 0);
    ghost var tried: set<string> := {};
    while key in used
      invariant key == candidate(name, n)
      invariant forall m: nat :: m < n ==> candidate(name, m) in used
      invariant tried == set m: nat | m < n :: candidate(name, m)
      invariant tried <= used
      decreases |used - tried|
    {
      assert key !in tried;
      assert used - (tried + {key}) == (used - tried) - {key};
      tried := tried + {key};
      n := n + 1;
      key := candidate(name, n);
    }
  }

  /** Outlines ordered by name. */
  predicate NameLeq(a: Outline, b: Outline)
  {
    LexLeq(a.name, b.name)
  }

  /** Notes ordered by last read, the most recently read first. */
  predicate ReadLeq(a: Note, b: Note)
  {
    a.lastRead >= b.lastRead
  }

  lemma NameLeqIsTotalPreorder()
    ensures TotalPreorder(NameLeq)
  {
    forall a: Outline, b: Outline ensures NameLeq(a, b) || NameLeq(b, a) {
      LexLeqTotal(a.name, b.name);
    }
    forall a: Outline, b: Outline, c: Outline | NameLeq(a, b) && NameLeq(b, c)
      ensures NameLeq(a, c)
    {
      LexLeqTransitive(a.name, b.name, c.name);
    }
  }

  /**
   * The key index mirrors the owned Outlines: no key is used twice, the
   * index has exactly their keys, and each key leads to the Outline that
   * carries it.
   */
  ghost predicate Mirrors(outlines: seq<Outline>, index: map<string, Outline>)
  {
    && UniqueKeys(outlines)
    && index.Keys == Keys(outlines)
    && (forall key :: key in index ==> index[key] in outlines && index[key].key == key)
  }

  /** Looking a key up in the index finds the Outline with that key, if there is one. */
  lemma MirrorsLookup(outlines: seq<Outline>, index: map<string, Outline>, key: string)
    requires Mirrors(outlines, index)
    ensures key in index <==> exists i :: 0 <= i < |outlines| && outlines[i].key == key
    ensures forall i :: 0 <= i < |outlines| && outlines[i].key == key ==> index[key] == outlines[i]
  {
    if key in index {
      var i :| 0 <= i < |outlines| && outlines[i] == index[key];
    }
    forall i | 0 <= i < |outlines| && outlines[i].key == key
      ensures key in index && index[key] == outlines[i]
    {
      assert outlines[i] in outlines;
      SameKeySameOutline(outlines, index[key], outlines[i]);
    }
  }

  /** Appending an Outline under a new key, and indexing it, keeps the mirror. */
  lemma MirrorsAppend(outlines: seq<Outline>, index: map<string, Outline>, outline: Outline)
    requires Mirrors(outlines, index)
    requires outline.key !in index
    ensures Mirrors(outlines + [outline], index[outline.key := outline])
  {
    var grown := outlines + [outline];
    assert Keys(grown) == Keys(outlines) + {outline.key};
    forall i, j | 0 <= i < j < |grown| ensures grown[i].key != grown[j].key {
      if j == |outlines| {
        assert grown[i] in outlines;
      }
    }
  }

  /**
   * Erasing the Outline at `i`, and its key from the index, keeps the
   * mirror; it erases exactly the entries with that key and takes exactly
   * its Notes out of the count.
   */
  lemma MirrorsEraseAt(outlines: seq<Outline>, index: map<string, Outline>, i: nat)
    requires Mirrors(outlines, index)
    requires i < |outlines|
    ensures outlines[i].key in index && index[outlines[i].key] == outlines[i]
    ensures Mirrors(outlines[..i] + outlines[i + 1..], index - {outlines[i].key})
    ensures WithoutKey(outlines, outlines[i].key) == outlines[..i] + outlines[i + 1..]
    ensures NotesCount(outlines[..i] + outlines[i + 1..]) == NotesCount(outlines) - |outlines[i].notes|
  {
    var key := outlines[i].key;
    MirrorsLookup(outlines, index, key);
    WithoutKeyAt(outlines, i);
    UniqueKeysWithoutAt(outlines, i);
    KeysWithoutKey(outlines, key);
    NotesCountWithoutAt(outlines, i);
  }

  /** An index that mirrors the owned Outlines is determined by them. */
  lemma MirrorsDetermined(outlines: seq<Outline>, a: map<string, Outline>, b: map<string, Outline>)
    requires Mirrors(outlines, a) && Mirrors(outlines, b)
    ensures a == b
  {
    forall key | key in a ensures a[key] == b[key] {
      SameKeySameOutline(outlines, a[key], b[key]);
    }
  }

  /** Everything a Memory holds, as one value. */
  datatype MemoryState = MemoryState(
    aware: bool,
    outlines: seq<Outline>,
    notes: seq<Note>,
    outlineStencils: seq<Stencil>,
    noteStencils: seq<Stencil>,
    limboOutlines: seq<Outline>,
    outlinesMap: map<string, Outline>)

  /**
   * Learning the same scan a second time leaves Memory exactly as the first
   * time did, whatever it held before.
   */
  method LearnTwice(memory: Memory, index: RepositoryIndex) returns (once: MemoryState, twice: MemoryState)
    requires index.Valid()
    modifies memory
    ensures once == twice == memory.State()
  {
    memory.Learn(index);
    once := memory.State();
    memory.Learn(index);
    twice := memory.State();
    MirrorsDetermined(memory.outlines, once.outlinesMap, twice.outlinesMap);
  }

  class Memory
  {
    /** Whether a repository has been learned. */
    var aware: bool
    /** Keep loaded Outline ASTs in memory rather than re-loading them. */
    var cache: bool
    const representation: Representation
    /** Stands for the key derivation of `createOutlineKey` and `createLimboKey`. */
    const keys: KeyScheme

    var outlines: seq<Outline>
    var notes: seq<Note>
    var outlineStencils: seq<Stencil>
    var noteStencils: seq<Stencil>
    var limboOutlines: seq<Outline>
    var outlinesMap: map<string, Outline>

    /**
     * The index mirrors the owned Outlines, and each stencil list holds
     * Stencils of its own kind.
     */
    ghost predicate Valid()
      reads this
    {
      && Mirrors(outlines, outlinesMap)
      && (forall s :: s in outlineStencils ==> s.resourceType == OutlineResource)
      && (forall s :: s in noteStencils ==> s.resourceType == NoteResource)
    }

    /** The current contents. */
    function State(): MemoryState
      reads this
    {
      MemoryState(aware, outlines, notes, outlineStencils, noteStencils, limboOutlines, outlinesMap)
    }

    constructor (cache: bool, representation: Representation, keys: KeyScheme)
      ensures Valid() && !aware
      ensures this.cache == cache && this.representation == representation && this.keys == keys
      ensures outlines == [] && notes == [] && outlineStencils == [] && noteStencils == []
      ensures limboOutlines == [] && outlinesMap == map[]
    {
      this.cache := cache;
      this.representation := representation;
      this.keys := keys;
      aware := false;
      outlines, notes, outlineStencils, noteStencils, limboOutlines := [], [], [], [], [];
      outlinesMap := map[];
    }

    /** Whether a repository has been learned since construction or the last amnesia. */
    predicate IsAware(): (learned: bool)
      reads this
      ensures learned == aware
    {
      aware
    }

    /** Forget everything. */
    method Amnesia()
      modifies this
      ensures Valid() && !aware && cache == old(cache)
      ensures outlines == [] && notes == [] && outlineStencils == [] && noteStencils == []
      ensures limboOutlines == [] && outlinesMap == map[]
    {
      outlines, notes, outlineStencils, noteStencils, limboOutlines := [], [], [], [], [];
      outlinesMap := map[];
      aware := false;
    }

    /**
     * Learn repository content: forget everything, then learn every outline
     * file of the scan (keyed by its path) and load both stencil lists.
     * The new state depends on the scan alone, so learning twice is
     * learning once.
     */
    method Learn(index: RepositoryIndex)
      requires index.Valid()
      modifies this
      ensures Valid() && aware && cache == old(cache)
      ensures outlines == LearnedOutlines(representation, index.outlineFiles)
      ensures outlinesMap.Keys == set path | path in index.outlineFiles
      ensures outlineStencils == LoadedStencils(representation, index.outlineStencilFiles, OutlineResource)
      ensures noteStencils == LoadedStencils(representation, index.noteStencilFiles, NoteResource)
      ensures notes == [] && limboOutlines == []
    {
      Amnesia();
      var files := index.outlineFiles;
      var i := 0;
      while i < |files|
        invariant 0 <= i <= |files|
        invariant Valid()
        invariant outlines == LearnedOutlines(representation, files[..i])
        invariant outlinesMap.Keys == set path | path in files[..i]
        invariant !aware && cache == old(cache)
        invariant notes == [] && limboOutlines == [] && outlineStencils == [] && noteStencils == []
      {
        var outline := LearnedOutline(representation, files[i]);
        assert outline.key !in outlinesMap;
        MirrorsAppend(outlines, outlinesMap, outline);
        assert files[..i + 1] == files[..i] + [files[i]];
        outlines := outlines + [outline];
        outlinesMap := outlinesMap[outline.key := outline];
        i := i + 1;
      }
      assert files[..i] == files;
      outlineStencils := LoadedStencils(representation, index.outlineStencilFiles, OutlineResource);
      noteStencils := LoadedStencils(representation, index.noteStencilFiles, NoteResource);
      aware := true;
    }

    /** The outline Stencils, or the note Stencils; outline ones by default. */
    function GetStencils(resourceType: ResourceType := OutlineResource): (stencils: seq<Stencil>)
      reads this
      requires Valid()
      ensures forall s :: s in stencils ==> s.resourceType == resourceType
      ensures stencils == if resourceType == OutlineResource then outlineStencils else noteStencils
    {
      if resourceType == OutlineResource then outlineStencils else noteStencils
    }

    /**
     * A key for a new Outline: the first candidate derived from `name` that
     * the index does not use yet.
     */
    method CreateOutlineKey(name: string) returns (key: string)
      requires Valid()
      ensures key !in outlinesMap
      ensures exists n: nat ::
        && key == keys.outlineKey(name, n)
        && forall m: nat :: m < n ==> keys.outlineKey(name, m) in outlinesMap
    {
      key := Probe(keys.outlineKey, name, outlinesMap.Keys);
    }

    /**
     * A key for an Outline in limbo: the first candidate derived from `name`
     * that neither limbo nor the index uses yet.
     */
    method CreateLimboKey(name: string) returns (key: string)
      requires Valid()
      ensures key !in Keys(limboOutlines) && key !in outlinesMap
      ensures exists n: nat ::
        && key == keys.limboKey(name, n)
        && forall m: nat :: m < n ==> keys.limboKey(name, m) in Keys(limboOutlines) + outlinesMap.Keys
    {
      key := Probe(keys.limboKey, name, Keys(limboOutlines) + outlinesMap.Keys);
    }

    /**
     * Create an Outline from a stencil, but do not learn it yet: it is
     * parsed from the stencil's file, given a limbo key of its own and put
     * in limbo.
     */
    method CreateOutline(stencil: Stencil) returns (outline: Outline)
      requires Valid()
      modifies this
      ensures Valid()
      ensures outline == representation.outline(stencil.path).(key := outline.key)
      ensures outline.key !in Keys(old(limboOutlines)) && outline.key !in old(outlinesMap)
      ensures limboOutlines == old(limboOutlines) + [outline]
      ensures outlines == old(outlines) && outlinesMap == old(outlinesMap) && notes == old(notes)
      ensures outlineStencils == old(outlineStencils) && noteStencils == old(noteStencils)
      ensures aware == old(aware) && cache == old(cache)
    {
      var key := CreateLimboKey(stencil.name);
      outline := representation.outline(stencil.path).(key := key);
      limboOutlines := limboOutlines + [outline];
    }

    /** Create a Note from a stencil, but do not learn it: Memory is left as it is. */
    method CreateNote(stencil: Stencil) returns (note: Note)
      ensures note == representation.note(stencil.path)
    {
      note := representation.note(stencil.path);
    }

    /**
     * Remember a known Outline by saving it. Saving is a no-op here; the
     * result says whether the key was known, and nothing in Memory changes.
     */
    method RememberKey(outlineKey: string) returns (known: bool)
      requires Valid()
      ensures known <==> exists i :: 0 <= i < |outlines| && outlines[i].key == outlineKey
      ensures known <==> outlineKey in outlinesMap
    {
      known := outlineKey in outlinesMap;
      if known {
        var o := outlinesMap[outlineKey];
        var i :| 0 <= i < |outlines| && outlines[i] == o;
      }
    }

    /**
     * Remember a new Outline: it is given a persisted key derived from its
     * name, joins the owned Outlines and the index under that key, and the
     * limbo entry with the key it arrived with leaves limbo. Every previously
     * known Outline stays as it was. The result is the Outline as remembered.
     */
    method Remember(outline: Outline) returns (remembered: Outline)
      requires Valid()
      modifies this
      ensures Valid()
      ensures remembered == outline.(key := remembered.key)
      ensures remembered.key !in old(outlinesMap)
      ensures exists n: nat ::
        && remembered.key == keys.outlineKey(outline.name, n)
        && forall m: nat :: m < n ==> keys.outlineKey(outline.name, m) in old(outlinesMap)
      ensures outlines == old(outlines) + [remembered]
      ensures outlinesMap == old(outlinesMap)[remembered.key := remembered]
      ensures limboOutlines == WithoutKey(old(limboOutlines), outline.key)
      ensures |outlines| == old(|outlines|) + 1
      ensures NotesCount(outlines) == old(NotesCount(outlines)) + |outline.notes|
      ensures aware == old(aware) && cache == old(cache) && notes == old(notes)
      ensures outlineStencils == old(outlineStencils) && noteStencils == old(noteStencils)
    {
      var key := CreateOutlineKey(outline.name);
      remembered := outline.(key := key);
      NotesCountConcat(outlines, [remembered]);
      MirrorsAppend(outlines, outlinesMap, remembered);
      outlines := outlines + [remembered];
      outlinesMap := outlinesMap[key := remembered];
      limboOutlines := WithoutKey(limboOutlines, outline.key);
    }

    /**
     * Forget an Outline: the known Outline with its key leaves the owned
     * Outlines and the index, and its Notes stop counting. An unknown key
     * changes nothing and is reported by a false result.
     */
    method Forget(outline: Outline) returns (known: bool)
      requires Valid()
      modifies this
      ensures Valid()
      ensures known <==> outline.key in old(outlinesMap)
      ensures outlines == WithoutKey(old(outlines), outline.key)
      ensures outlinesMap == old(outlinesMap) - {outline.key}
      ensures outline.key in old(outlinesMap) ==>
        && |outlines| == old(|outlines|) - 1
        && NotesCount(outlines) == old(NotesCount(outlines)) - |old(outlinesMap)[outline.key].notes|
      ensures outline.key !in old(outlinesMap) ==> outlines == old(outlines)
      ensures aware == old(aware) && cache == old(cache) && notes == old(notes)
      ensures limboOutlines == old(limboOutlines)
      ensures outlineStencils == old(outlineStencils) && noteStencils == old(noteStencils)
    {
      var i := IndexOf(outline.key);
      known := i < |outlines|;
      if known {
        var remaining, index := outlines[..i] + outlines[i + 1..], outlinesMap - {outline.key};
        MirrorsEraseAt(outlines, outlinesMap, i);
        outlines, outlinesMap := remaining, index;
      } else {
        MirrorsLookup(outlines, outlinesMap, outline.key);
        WithoutKeyAbsent(outlines, outline.key);
      }
    }

    /** The position of the owned Outline with the given key, or the Outline count when there is none. */
    method IndexOf(key: string) returns (i: nat)
      ensures i <= |outlines|
      ensures i < |outlines| ==> outlines[i].key == key
      ensures forall j :: 0 <= j < i ==> outlines[j].key != key
    {
      i := 0;
      while i < |outlines| && outlines[i].key != key
        invariant i <= |outlines|
        invariant forall j :: 0 <= j < i ==> outlines[j].key != key
      {
        i := i + 1;
      }
    }

    /** The number of Outlines: as many as the index has keys. */
    function OutlinesCount(): (count: nat)
      reads this
      requires Valid()
      ensures count == |outlinesMap|
    {
      KeysCount(outlines);
      |outlines|
    }

    /** The number of Notes of all Outlines, counted Outline by Outline. */
    method GetNotesCount() returns (count: nat)
      ensures count == NotesCount(outlines)
      ensures count == |AllNotes(outlines)|
    {
      count := 0;
      var i := 0;
      while i < |outlines|
        invariant 0 <= i <= |outlines|
        invariant count == NotesCount(outlines[..i])
      {
        NotesCountConcat(outlines[..i], [outlines[i]]);
        assert outlines[..i + 1] == outlines[..i] + [outlines[i]];
        count := count + |outlines[i].notes|;
        i := i + 1;
      }
      assert outlines[..i] == outlines;
      AllNotesLength(outlines);
    }

    /** The Outlines; each of them is the one the index holds under its key. */
    function GetOutlines(): (known: seq<Outline>)
      reads this
      requires Valid()
      ensures known == outlines
      ensures forall o :: o in known ==> o.key in outlinesMap && outlinesMap[o.key] == o
    {
      forall o | o in outlines ensures o.key in outlinesMap && outlinesMap[o.key] == o {
        SameKeySameOutline(outlines, outlinesMap[o.key], o);
      }
      outlines
    }

    /** The Outline with the given key, or None when no Outline has that key. */
    method GetOutline(key: string) returns (outline: Option<Outline>)
      requires Valid()
      ensures outline.Some? <==> exists i :: 0 <= i < |outlines| && outlines[i].key == key
      ensures outline.Some? ==> outline.value in outlines && outline.value.key == key
    {
      if key in outlinesMap {
        outline := Some(outlinesMap[key]);
        var i :| 0 <= i < |outlines| && outlines[i] == outline.value;
      } else {
        outline := None;
      }
    }

    /**
     * Append the Notes of all Outlines to `into`, Outline by Outline; with
     * `sortByRead`, the whole result is then ordered most recently read first.
     */
    method GetAllNotes(into: seq<Note>, sortByRead: bool := false) returns (all: seq<Note>)
      ensures !sortByRead ==> all == into + AllNotes(outlines)
      ensures sortByRead ==> SortedBy(all, ReadLeq)
      ensures multiset(all) == multiset(into + AllNotes(outlines))
    {
      all := into;
      var i := 0;
      while i < |outlines|
        invariant 0 <= i <= |outlines|
        invariant all == into + AllNotes(outlines[..i])
      {
        AllNotesConcat(outlines[..i], [outlines[i]]);
        assert outlines[..i + 1] == outlines[..i] + [outlines[i]];
        all := all + outlines[i].notes;
        i := i + 1;
      }
      assert outlines[..i] == outlines;
      if sortByRead {
        var sorted := new Note[|all|](k requires 0 <= k < |all| => all[k]);
        assert sorted[..] == all;
        SortByRead(sorted);
        all := sorted[..];
      }
    }

    /** Order the given Outlines by name, in place. */
    method SortByName(sorted: array<Outline>)
      modifies sorted
      ensures SortedBy(sorted[..], NameLeq)
      ensures multiset(sorted[..]) == old(multiset(sorted[..]))
    {
      NameLeqIsTotalPreorder();
      InsertionSort(sorted, NameLeq);
    }

    /** Order the given Notes most recently read first, in place. */
    method SortByRead(sorted: array<Note>)
      modifies sorted
      ensures SortedBy(sorted[..], ReadLeq)
      ensures multiset(sorted[..]) == old(multiset(sorted[..]))
    {
      InsertionSort(sorted, ReadLeq);
    }
  }
}
