/**
 * The two Outline scenarios of the repository's unit tests, restated as
 * client methods of the Memory model. What the markdown files parse to, and
 * how keys are derived, are parameters.
 */
module OutlineTest {
  import opened Model
  import opened Mind

  const OutlineFile := "/tmp/mf-unit-repository/memory/outline.md"
  const StencilFile := "/tmp/mf-unit-repository-o/stencils/outlines/o-s.md"
  const ManualStencilFile := "/tmp/mf-unit-repository-o/stencils/outlines/grow.md"

  /**
   * A repository holding one outline with one note: after learning it there
   * is one Outline and one Note; forgetting that Outline brings both counts
   * back to zero.
   */
  method NewAndDeleteOutline(representation: Representation, keys: KeyScheme)
    returns (outlinesLearned: nat, notesLearned: nat, forgotten: bool, outlinesLeft: nat, notesLeft: nat)
    requires |representation.outline(OutlineFile).notes| == 1
    ensures outlinesLearned == 1 && notesLearned == 1
    ensures forgotten
    ensures outlinesLeft == 0 && notesLeft == 0
  {
    var memory := new Memory(true, representation, keys);
    memory.Learn(RepositoryIndex([OutlineFile], [], []));
    outlinesLearned := memory.OutlinesCount();
    notesLearned := memory.GetNotesCount();

    var key := memory.GetOutlines()[0].key;
    var outline := memory.GetOutline(key);
    forgotten := memory.Forget(outline.value);
    outlinesLeft := memory.OutlinesCount();
    notesLeft := memory.GetNotesCount();
  }

  /** Erasing two Outlines with distinct keys from limbo, key by key, empties it. */
  lemma LimboEmptiedByKey(a: Outline, b: Outline)
    requires a.key != b.key
    ensures WithoutKey(WithoutKey([a, b], a.key), b.key) == []
  {
    assert [a, b][1..] == [b] && [b][1..] == [];
    assert WithoutKey([b], a.key) == [b] + WithoutKey([], a.key);
  }

  /**
   * A repository holding one outline stencil: it is the stencil returned by
   * default; an Outline created from it and one created from a stencil
   * built by hand get distinct keys; each is given its title and
   * remembered, which gives two Outlines with all their Notes counted, and
   * nothing is left in limbo.
   */
  method NewOutlineFromStencil(representation: Representation, keys: KeyScheme)
    returns (stencilPath: string, distinctKeys: bool, outlinesCount: nat, notesCount: nat, limboCount: nat)
    ensures stencilPath == StencilFile
    ensures distinctKeys
    ensures outlinesCount == 2
    ensures notesCount == |representation.outline(StencilFile).notes| + |representation.outline(ManualStencilFile).notes|
    ensures limboCount == 0
  {
    var memory := new Memory(true, representation, keys);
    memory.Learn(RepositoryIndex([], [StencilFile], []));
    var stencils := memory.GetStencils();
    stencilPath := stencils[0].path;

    var fromFile := memory.CreateOutline(stencils[0]);
    var fromHand := memory.CreateOutline(Stencil(ManualStencilFile, "Manual stencil", OutlineResource));
    distinctKeys := fromFile.key != fromHand.key;
    LimboEmptiedByKey(fromFile, fromHand);

    var _ := memory.Remember(fromFile.(name := "MIND's stencil Outline"));
    var _ := memory.Remember(fromHand.(name := "MANUAL stencil Outline"));

    outlinesCount := memory.OutlinesCount();
    notesCount := memory.GetNotesCount();
    limboCount := |memory.limboOutlines|;
  }
}
