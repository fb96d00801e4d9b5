/** A backend node serves the cells of one user as the file service expects them
    (common/kv_interface.h:55-139, backend/kvstore.cpp:72-123). */
module StorageBackend {
  import opened Text
  import opened Status
  import opened KvModel
  import W = StorageWorld

  /** The cells of `user` as the file service sees them are the node's view. */
  ghost predicate Shows(s: State, user: string, cells: W.Cells) {
    forall key :: W.View(cells, key) == Cell(s, user, key)
  }

  function CellsAfter(c: Command, cells: W.Cells, status: Status): W.Cells {
    match c
    case PutsCmd(_, key, value) => cells[key := value]
    case CputCmd(_, key, _, value) => if status == Finished then cells[key := value] else cells
    case DeleCmd(_, key) => cells - {key}
    case _ => cells
  }

  /** Every command of the user changes the cells exactly as `StorageService.Kv` says;
      commands of other users do not change them. */
  lemma NodeServesCells(s: State, user: string, cells: W.Cells, c: Command)
    requires Running(s) && Shows(s, user, cells)
    ensures var (t, reply) := Step(s, c);
            && Running(t)
            && (EffectOf(s, c).Some? && c.usr != user ==> Shows(t, user, cells))
            && (EffectOf(s, c).None? || c.usr == user ==> Shows(t, user, CellsAfter(c, cells, reply.status)))
  {
    hide Step, Running;
    if EffectOf(s, c).Some? {
      StepTakesEffect(s, c);
      EffectOnCells(s, Step(s, c).0, user, cells, c);
    } else {
      StepKeepsView(s, c);
    }
  }

  lemma EffectOnCells(s: State, t: State, user: string, cells: W.Cells, c: Command)
    requires Shows(s, user, cells) && EffectOf(s, c).Some? && ViewAfter(s, t, EffectOf(s, c).value)
    ensures c.usr != user ==> Shows(t, user, cells)
    ensures c.usr == user ==> Shows(t, user, CellsAfter(c, cells, StatusOf(EffectOf(s, c).value)))
  {
    var e, after := EffectOf(s, c).value, CellsAfter(c, cells, StatusOf(EffectOf(s, c).value));
    forall key ensures c.usr != user ==> W.View(cells, key) == Cell(t, user, key)
      ensures c.usr == user ==> W.View(after, key) == Cell(t, user, key)
    {
      assert W.View(cells, key) == Cell(s, user, key);
    }
  }

  /** The statuses: a compare-and-put finishes exactly if the cell holds the expected
      value; a read answers the cell, and fails only if it is empty. */
  lemma NodeAnswers(s: State, user: string, cells: W.Cells, key: string, value1: string, value2: string)
    requires Running(s) && Shows(s, user, cells)
    ensures Step(s, CputCmd(user, key, value1, value2)).1.status == Finished <==> W.View(cells, key) == value1
    ensures var reply := Step(s, GetsCmd(user, key)).1;
            reply.value == W.View(cells, key) && (reply.value != "" ==> reply.status == Finished)
  {
    hide Coherent, Gets;
    CputIsCompareAndSwap(s, user, key, value1, value2);
    GetsReturnsView(s, user, key);
  }
}
