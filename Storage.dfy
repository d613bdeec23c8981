/** The calculation history kept on the device under one key of the
    key-value store: newest first, at most 50 entries. */
module Storage {
  import opened NutritionTypes
  import opened Seqs

  /** The capacity of the history. */
  const MaxEntries := 50

  /** What the history key holds: nothing, a readable list, or a value that
      cannot be read back (the read fails or the text does not parse). */
  datatype Slot = Absent | Stored(entries: seq<CalculationHistory>) | Unreadable

  /** The history after `c` is saved: `c` first, then the older entries, the
      oldest dropped once there are more than 50. */
  function Pushed(history: seq<CalculationHistory>, c: CalculationHistory): (r: seq<CalculationHistory>)
    ensures |r| == if |history| + 1 < MaxEntries then |history| + 1 else MaxEntries
    ensures r[0] == c
    ensures r[1..] <= history
  {
    Take([c] + history, MaxEntries)
  }

  /** The history without the entries whose id is `id`. */
  function WithoutId(history: seq<CalculationHistory>, id: string): (r: seq<CalculationHistory>)
    ensures forall e :: e in r <==> e in history && e.id != id
  {
    Filter(history, (e: CalculationHistory) => e.id != id)
  }

  /** Below the capacity, saving drops nothing. */
  lemma PushedKeepsAllBelowCapacity(history: seq<CalculationHistory>, c: CalculationHistory)
    requires |history| < MaxEntries
    ensures Pushed(history, c) == [c] + history
  {
  }

  /** At capacity, saving drops exactly the oldest entry. */
  lemma PushedDropsOldestAtCapacity(history: seq<CalculationHistory>, c: CalculationHistory)
    requires |history| == MaxEntries
    ensures Pushed(history, c) == [c] + history[..MaxEntries - 1]
  {
  }

  /** Saving does not look for an entry with the same id: both are kept. */
  lemma PushedKeepsDuplicateIds(history: seq<CalculationHistory>, c: CalculationHistory, k: nat)
    requires k < |history| < MaxEntries && history[k].id == c.id && history[k] != c
    ensures var r := Pushed(history, c);
            r[0] == c && r[k + 1] == history[k] && r[0].id == r[k + 1].id
  {
  }

  /** Deleting an id no entry has changes nothing. */
  lemma WithoutAbsentId(history: seq<CalculationHistory>, id: string)
    requires forall i :: 0 <= i < |history| ==> history[i].id != id
    ensures WithoutId(history, id) == history
  {
    FilterKeepsAll(history, (e: CalculationHistory) => e.id != id);
  }

  /** Deleting an id that some entry has shortens the history. */
  lemma WithoutPresentId(history: seq<CalculationHistory>, id: string, k: nat)
    requires k < |history| && history[k].id == id
    ensures |WithoutId(history, id)| < |history|
  {
    FilterDropsOne(history, (e: CalculationHistory) => e.id != id, k);
  }

  /** Deleting keeps the other entries in their order: it distributes over any split of the history. */
  lemma WithoutIdKeepsOrder(a: seq<CalculationHistory>, b: seq<CalculationHistory>, id: string)
    ensures WithoutId(a + b, id) == WithoutId(a, id) + WithoutId(b, id)
  {
    FilterConcat(a, b, (e: CalculationHistory) => e.id != id);
  }

  /** The key-value store's history key. Writes can fail; a failed write is
      logged and leaves the key as it was. */
  class HistoryStore {
    var slot: Slot

    constructor ()
      ensures slot == Absent
    {
      slot := Absent;
    }

    /** `getHistory`: the stored list, or the empty list when nothing is stored
        or the stored value cannot be read. */
    function GetHistory(): (h: seq<CalculationHistory>)
      reads this
      ensures slot.Stored? ==> h == slot.entries
      ensures !slot.Stored? ==> h == []
    {
      match slot
      case Stored(entries) => entries
      case _ => []
    }

    /** `saveCalculation`: read the history, put `c` first, keep 50, write back. */
    method SaveCalculation(c: CalculationHistory, writeOk: bool)
      modifies this
      ensures writeOk ==> slot == Stored(Pushed(old(GetHistory()), c))
      ensures !writeOk ==> slot == old(slot)
    {
      var history := GetHistory();
      history := [c] + history;
      var limited := Take(history, MaxEntries);
      if writeOk {
        slot := Stored(limited);
      }
    }

    /** `deleteCalculation`: write back the history without the entries with id `id`. */
    method DeleteCalculation(id: string, writeOk: bool)
      modifies this
      ensures writeOk ==> slot == Stored(WithoutId(old(GetHistory()), id))
      ensures !writeOk ==> slot == old(slot)
    {
      var history := GetHistory();
      var filtered := WithoutId(history, id);
      if writeOk {
        slot := Stored(filtered);
      }
    }

    /** `clearHistory`: remove the key. */
    method ClearHistory(removeOk: bool)
      modifies this
      ensures removeOk ==> slot == Absent && GetHistory() == []
      ensures !removeOk ==> slot == old(slot)
    {
      if removeOk {
        slot := Absent;
      }
    }
  }
}
