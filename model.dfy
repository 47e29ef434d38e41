/**
 * The entities the Memory store keeps: Outlines (documents) owning Notes,
 * and Stencils (templates). Only the parts Memory's bookkeeping relies on
 * are modelled: keys, names, the notes an Outline owns and the read
 * metadata used to order notes.
 */
module Model {

  /** A present value or nothing; stands for a possibly-null pointer. */
  datatype Option<T> = None | Some(value: T)

  /** Which kind of document a Stencil instantiates. */
  datatype ResourceType = OutlineResource | NoteResource

  /** A named template backed by a (possibly non-existent) file. */
  datatype Stencil = Stencil(path: string, name: string, resourceType: ResourceType)

  /** A titled unit of content; `lastRead` is the last-read timestamp, `readCount` the read count. */
  datatype Note = Note(key: string, title: string, lastRead: int, readCount: nat)

  /** A document: its key, its name and the Notes it owns, in order. */
  datatype Outline = Outline(key: string, name: string, notes: seq<Note>)

  /** The number of Notes owned by all the given Outlines. */
  function NotesCount(outlines: seq<Outline>): nat
  {
    if outlines == [] then 0 else |outlines[0].notes| + NotesCount(outlines[1..])
  }

  /** The Notes of all the given Outlines, Outline by Outline, each in its own order. */
  function AllNotes(outlines: seq<Outline>): seq<Note>
  {
    if outlines == [] then [] else outlines[0].notes + AllNotes(outlines[1..])
  }

  /** The keys of the given Outlines. */
  function Keys(outlines: seq<Outline>): set<string>
  {
    set o | o in outlines :: o.key
  }

  /** No two Outlines share a key. */
  ghost predicate UniqueKeys(outlines: seq<Outline>)
  {
    forall i, j :: 0 <= i < j < |outlines| ==> outlines[i].key != outlines[j].key
  }

  /** `outlines` without the entries whose key is `key`. */
  function WithoutKey(outlines: seq<Outline>, key: string): seq<Outline>
  {
    if outlines == [] then []
    else if outlines[0].key == key then WithoutKey(outlines[1..], key)
    else [outlines[0]] + WithoutKey(outlines[1..], key)
  }

  /** Erasing by key keeps exactly the entries with another key. */
  lemma {:induction false} WithoutKeyMembers(outlines: seq<Outline>, key: string)
    ensures forall o :: o in WithoutKey(outlines, key) <==> o in outlines && o.key != key
  {
    if outlines != [] {
      WithoutKeyMembers(outlines[1..], key);
      assert outlines == [outlines[0]] + outlines[1..];
    }
  }

  lemma {:induction false} NotesCountConcat(a: seq<Outline>, b: seq<Outline>)
    ensures NotesCount(a + b) == NotesCount(a) + NotesCount(b)
  {
    if a != [] {
      assert (a + b)[0] == a[0] && (a + b)[1..] == a[1..] + b;
      NotesCountConcat(a[1..], b);
    } else {
      assert a + b == b;
    }
  }

  lemma {:induction false} AllNotesConcat(a: seq<Outline>, b: seq<Outline>)
    ensures AllNotes(a + b) == AllNotes(a) + AllNotes(b)
  {
    if a != [] {
      assert (a + b)[0] == a[0] && (a + b)[1..] == a[1..] + b;
      AllNotesConcat(a[1..], b);
    } else {
      assert a + b == b;
    }
  }

  /** Flattening the Notes keeps exactly as many Notes as the counter reports. */
  lemma {:induction false} AllNotesLength(outlines: seq<Outline>)
    ensures |AllNotes(outlines)| == NotesCount(outlines)
  {
    if outlines != [] {
      AllNotesLength(outlines[1..]);
    }
  }

  /** With unique keys there are as many distinct keys as Outlines. */
  lemma {:induction false} KeysCount(outlines: seq<Outline>)
    requires UniqueKeys(outlines)
    ensures |Keys(outlines)| == |outlines|
  {
    if outlines != [] {
      var rest := outlines[1..];
      UniqueKeysTail(outlines);
      KeysCount(rest);
      KeysCons(outlines);
    }
  }

  /** Dropping the first Outline keeps the keys unique. */
  lemma UniqueKeysTail(outlines: seq<Outline>)
    requires UniqueKeys(outlines) && outlines != []
    ensures UniqueKeys(outlines[1..])
  {
    var rest := outlines[1..];
    forall i, j | 0 <= i < j < |rest| ensures rest[i].key != rest[j].key {
      assert rest[i] == outlines[i + 1] && rest[j] == outlines[j + 1];
    }
  }

  /** With unique keys, the key set is the first key beside, not among, the others' keys. */
  lemma KeysCons(outlines: seq<Outline>)
    requires UniqueKeys(outlines) && outlines != []
    ensures Keys(outlines) == {outlines[0].key} + Keys(outlines[1..])
    ensures outlines[0].key !in Keys(outlines[1..])
  {
    var rest := outlines[1..];
    assert outlines == [outlines[0]] + rest;
    forall o | o in rest ensures o.key != outlines[0].key {
      var j :| 0 <= j < |rest| && rest[j] == o;
      assert outlines[j + 1] == o;
    }
  }

  /** Among Outlines with unique keys, an Outline is determined by its key. */
  lemma SameKeySameOutline(outlines: seq<Outline>, a: Outline, b: Outline)
    requires UniqueKeys(outlines)
    requires a in outlines && b in outlines && a.key == b.key
    ensures a == b
  {
    var i :| 0 <= i < |outlines| && outlines[i] == a;
    var j :| 0 <= j < |outlines| && outlines[j] == b;
    assert !(i < j) && !(j < i);
  }

  /**
   * Erasing the Outline at index `i` from a list with unique keys is
   * exactly erasing every entry with its key.
   */
  lemma {:induction false} WithoutKeyAt(outlines: seq<Outline>, i: nat)
    requires UniqueKeys(outlines)
    requires i < |outlines|
    ensures WithoutKey(outlines, outlines[i].key) == outlines[..i] + outlines[i + 1..]
  {
    var key := outlines[i].key;
    var rest := outlines[1..];
    if i == 0 {
      WithoutKeyAbsent(rest, key);
    } else {
      UniqueKeysTail(outlines);
      assert outlines[0].key != key;
      assert rest[i - 1] == outlines[i];
      WithoutKeyAt(rest, i - 1);
      assert outlines[..i] + outlines[i + 1..] == [outlines[0]] + (rest[..i - 1] + rest[i..]);
    }
  }

  /** Erasing a key that no Outline carries changes nothing. */
  lemma {:induction false} WithoutKeyAbsent(outlines: seq<Outline>, key: string)
    requires forall j :: 0 <= j < |outlines| ==> outlines[j].key != key
    ensures WithoutKey(outlines, key) == outlines
  {
    if outlines != [] {
      WithoutKeyAbsent(outlines[1..], key);
      assert outlines == [outlines[0]] + outlines[1..];
    }
  }

  /** Erasing one Outline from a list with unique keys keeps the keys unique. */
  lemma UniqueKeysWithoutAt(outlines: seq<Outline>, i: nat)
    requires UniqueKeys(outlines)
    requires i < |outlines|
    ensures UniqueKeys(outlines[..i] + outlines[i + 1..])
  {
    var rest := outlines[..i] + outlines[i + 1..];
    forall p, q | 0 <= p < q < |rest| ensures rest[p].key != rest[q].key {
      var p' := if p < i then p else p + 1;
      var q' := if q < i then q else q + 1;
      assert rest[p] == outlines[p'] && rest[q] == outlines[q'];
    }
  }

  /** Erasing the entries with a key erases exactly that key. */
  lemma KeysWithoutKey(outlines: seq<Outline>, key: string)
    ensures Keys(WithoutKey(outlines, key)) == Keys(outlines) - {key}
  {
    var r := WithoutKey(outlines, key);
    WithoutKeyMembers(outlines, key);
    forall k | k in Keys(outlines) - {key} ensures k in Keys(r) {
      var o :| o in outlines && o.key == k;
      assert o in r;
    }
  }

  /** Erasing one Outline from a list removes exactly its Notes from the count. */
  lemma NotesCountWithoutAt(outlines: seq<Outline>, i: nat)
    requires i < |outlines|
    ensures NotesCount(outlines[..i] + outlines[i + 1..]) == NotesCount(outlines) - |outlines[i].notes|
  {
    assert outlines == outlines[..i] + ([outlines[i]] + outlines[i + 1..]);
    NotesCountConcat(outlines[..i], [outlines[i]] + outlines[i + 1..]);
    NotesCountConcat([outlines[i]], outlines[i + 1..]);
    NotesCountConcat(outlines[..i], outlines[i + 1..]);
  }
}
